module Dedup {
  // The receiver's deduplication table: claiming a remote message before its
  // handler runs, and finishing it afterwards.  The table is bounded; a full one
  // gives up its oldest completed entry, never one in progress.

  import opened Prelude

  datatype Key = Key(sender: nat, msgId: nat)
  datatype Entry = InProgress | Completed
  datatype Verdict = Fresh | AlreadyCompleted | Busy | Overflow
  datatype Delivered = Ok | Threw | DeadLetter

  type Table = map<Key, Entry>

  predicate Before(a: Key, b: Key) {
    a.msgId < b.msgId || (a.msgId == b.msgId && a.sender < b.sender)
  }

  predicate IsCompleted(t: Table, k: Key) {
    k in t && t[k] == Completed
  }

  // v is the least completed key by (message id, sender).
  ghost predicate IsVictim(t: Table, v: Key) {
    IsCompleted(t, v) && forall k :: IsCompleted(t, k) && k != v ==> Before(v, k)
  }

  lemma VictimUnique(t: Table, v: Key, w: Key)
    requires IsVictim(t, v) && IsVictim(t, w)
    ensures v == w
  {
  }

  // The least completed key of a set of keys, if any is completed.
  ghost predicate LeastAmong(t: Table, keys: set<Key>, v: Option<Key>) {
    match v
    case None => forall k | k in keys :: !IsCompleted(t, k)
    case Some(x) =>
      x in keys && IsCompleted(t, x) && forall k | k in keys && IsCompleted(t, k) && k != x :: Before(x, k)
  }

  lemma {:induction false} LeastExists(t: Table, keys: set<Key>) returns (v: Option<Key>)
    ensures LeastAmong(t, keys, v)
    decreases keys
  {
    if keys == {} {
      v := None;
    } else {
      var k :| k in keys;
      var w := LeastExists(t, keys - {k});
      if IsCompleted(t, k) && (w.None? || Before(k, w.value)) {
        v := Some(k);
      } else {
        v := w;
      }
    }
  }

  lemma LeastIsThere(t: Table, keys: set<Key>)
    ensures exists v :: LeastAmong(t, keys, v)
  {
    var v := LeastExists(t, keys);
  }

  ghost function Victim(t: Table): (v: Option<Key>)
    ensures v.None? <==> forall k :: !IsCompleted(t, k)
    ensures v.Some? ==> IsVictim(t, v.value)
  {
    if exists k :: IsCompleted(t, k) then
      LeastIsThere(t, t.Keys);
      var least :| LeastAmong(t, t.Keys, least);
      least
    else None
  }

  ghost function Claim(cap: nat, t: Table, key: Key): (r: (Verdict, Table, Option<Key>)) {
    if key in t then (if t[key] == Completed then AlreadyCompleted else Busy, t, None)
    else if |t| < cap then (Fresh, t[key := InProgress], None)
    else
      var v := Victim(t);
      if v.None? then (Overflow, t, None)
      else (Fresh, (t - {v.value})[key := InProgress], v)
  }

  // The table after a delivery ends; anything but a throw is acknowledged.
  function Finish(cap: nat, t: Table, key: Key, result: Delivered): Table {
    if result == Threw then t - {key}
    else if key in t || |t| < cap then t[key := Completed]
    else t
  }

  // peek_dedup's answer.
  function Found(t: Table, key: Key): Option<Entry> {
    if key in t then Some(t[key]) else None
  }

  class DedupTable {
    const cap: nat
    var table: Table
    var evictions: nat
    var overflows: nat

    constructor (cap: nat)
      ensures this.cap == cap && table == map[] && evictions == overflows == 0
    {
      this.cap, table, evictions, overflows := cap, map[], 0, 0;
    }

    // claim_remote with no receiver log; the scan visits the entries in an
    // arbitrary order.
    method ClaimRemote(key: Key) returns (v: Verdict)
      modifies this
      ensures (v, table) == (Claim(cap, old(table), key).0, Claim(cap, old(table), key).1)
      ensures evictions == old(evictions) + if Claim(cap, old(table), key).2.Some? then 1 else 0
      ensures overflows == old(overflows) + if v == Overflow then 1 else 0
    {
      if key in table {
        return if table[key] == Completed then AlreadyCompleted else Busy;
      }
      if |table| >= cap {
        var found, victim := false, Key(0, 0);
        var rest := table.Keys;
        while rest != {}
          invariant rest <= table.Keys
          invariant LeastAmong(table, table.Keys - rest, if found then Some(victim) else None)
          decreases rest
        {
          var k :| k in rest;
          rest := rest - {k};
          assert table.Keys - rest == (table.Keys - (rest + {k})) + {k};
          if table[k] != Completed {
            continue;
          }
          if !found || Before(k, victim) {
            found, victim := true, k;
          }
        }
        assert table.Keys - rest == table.Keys;
        if !found {
          assert forall k :: !IsCompleted(table, k);
          overflows := overflows + 1;
          return Overflow;
        }
        assert IsVictim(table, victim);
        VictimUnique(table, victim, Victim(table).value);
        table := table - {victim};
        evictions := evictions + 1;
      }
      table := table[key := InProgress];
      v := Fresh;
    }

    // The table part of finish_remote_delivery; the result says whether to ack.
    method FinishDelivery(key: Key, result: Delivered) returns (ack: bool)
      modifies this`table
      ensures table == Finish(cap, old(table), key, result)
      ensures ack <==> result != Threw
    {
      ack := false;
      if result == Threw {
        if key in table {
          table := table - {key};
        } else {
          assert table - {key} == table;
        }
      } else {
        if key in table {
          table := table[key := Completed];
        } else if |table| < cap {
          table := table[key := Completed];
        }
        ack := true;
      }
    }

    // peek_dedup
    method Peek(key: Key) returns (e: Option<Entry>)
      ensures e == Found(table, key)
    {
      if key !in table {
        return None;
      }
      e := Some(table[key]);
    }
  }

  // ---- one receiver over every run --------------------------------------------

  // A handler run carries a tag, the connection its message came by.
  datatype Receiver<L> = Receiver(
    cap: nat,
    table: Table,
    running: seq<(Key, L)>,     // handler runs in progress
    okRuns: multiset<Key>,      // history: runs that ended without throwing
    evicted: multiset<Key>)     // history: completed entries given up

  datatype Event<L> = Begin(key: Key, tag: L) | End(i: nat, result: Delivered)

  function Start<L>(cap: nat): Receiver<L> {
    Receiver(cap, map[], [], multiset{}, multiset{})
  }

  ghost function BeginStep<L>(r: Receiver<L>, key: Key, tag: L): Receiver<L> {
    var (v, t, victim) := Claim(r.cap, r.table, key);
    r.(table := t,
       running := if v == Fresh then r.running + [(key, tag)] else r.running,
       evicted := if victim.Some? then r.evicted + multiset{victim.value} else r.evicted)
  }

  function EndStep<L>(r: Receiver<L>, i: nat, result: Delivered): Receiver<L>
    requires i < |r.running|
  {
    var key := r.running[i].0;
    r.(table := Finish(r.cap, r.table, key, result),
       running := DropAt(r.running, i),
       okRuns := if result == Threw then r.okRuns else r.okRuns + multiset{key})
  }

  ghost function Apply<L>(r: Receiver<L>, e: Event<L>): Receiver<L> {
    match e
    case Begin(key, tag) => BeginStep(r, key, tag)
    case End(i, result) => if i < |r.running| then EndStep(r, i, result) else r
  }

  ghost predicate RunsMatchTable<L>(r: Receiver<L>) {
    && (forall i | 0 <= i < |r.running| :: r.running[i].0 in r.table && r.table[r.running[i].0] == InProgress)
    && (forall i, j | 0 <= i < j < |r.running| :: r.running[i].0 != r.running[j].0)
    && (forall k | k in r.table && r.table[k] == InProgress :: exists i :: 0 <= i < |r.running| && r.running[i].0 == k)
  }

  ghost predicate RunsCounted<L>(r: Receiver<L>) {
    forall k: Key :: r.okRuns[k] == r.evicted[k] + if IsCompleted(r.table, k) then 1 else 0
  }

  ghost predicate Inv<L>(r: Receiver<L>) {
    RunsMatchTable(r) && RunsCounted(r) && |r.table| <= r.cap
  }

  // Giving up an entry frees exactly one place.
  lemma SizeWithout(t: Table, v: Key)
    requires v in t
    ensures |t - {v}| == |t| - 1
  {
    assert (t - {v}).Keys == t.Keys - {v};
  }

  lemma BeginSize(cap: nat, t: Table, key: Key)
    requires |t| <= cap
    ensures |Claim(cap, t, key).1| <= cap
  {
    var (v, t', victim) := Claim(cap, t, key);
    if victim.Some? {
      SizeWithout(t, victim.value);
    }
  }

  // A claim changes only the claimed key and the victim's.
  lemma ClaimChanges(cap: nat, t: Table, key: Key, k: Key)
    ensures var (v, t', victim) := Claim(cap, t, key);
            && (v == Fresh ==> key !in t && (k == key ==> k in t' && t'[k] == InProgress))
            && (v != Fresh ==> t' == t && victim.None?)
            && (victim == Some(k) ==> IsCompleted(t, k) && k != key && k !in t')
            && (k != key && victim != Some(k) ==> (k in t' <==> k in t) && (k in t ==> t'[k] == t[k]))
  {
  }

  lemma BeginMatches<L>(r: Receiver<L>, key: Key, tag: L)
    requires Inv(r)
    ensures RunsMatchTable(BeginStep(r, key, tag))
  {
    var (v, t, victim) := Claim(r.cap, r.table, key);
    var r' := BeginStep(r, key, tag);
    forall i | 0 <= i < |r'.running|
      ensures r'.running[i].0 in t && t[r'.running[i].0] == InProgress
    {
      ClaimChanges(r.cap, r.table, key, r'.running[i].0);
    }
    ClaimChanges(r.cap, r.table, key, key);
    forall k | k in t && t[k] == InProgress ensures exists i :: 0 <= i < |r'.running| && r'.running[i].0 == k {
      ClaimChanges(r.cap, r.table, key, k);
      if v == Fresh && k == key {
        assert r'.running[|r.running|].0 == k;
      } else {
        var i :| 0 <= i < |r.running| && r.running[i].0 == k;
        assert r'.running[i].0 == k;
      }
    }
  }

  lemma BeginCounts<L>(r: Receiver<L>, key: Key, tag: L)
    requires Inv(r)
    ensures RunsCounted(BeginStep(r, key, tag))
  {
    var r' := BeginStep(r, key, tag);
    forall k: Key ensures r'.okRuns[k] == r'.evicted[k] + if IsCompleted(r'.table, k) then 1 else 0 {
      ClaimChanges(r.cap, r.table, key, k);
    }
  }

  lemma BeginInv<L>(r: Receiver<L>, key: Key, tag: L)
    requires Inv(r)
    ensures Inv(BeginStep(r, key, tag))
  {
    BeginMatches(r, key, tag);
    BeginCounts(r, key, tag);
    BeginSize(r.cap, r.table, key);
  }

  lemma EndMatchesRuns<L>(r: Receiver<L>, i: nat, result: Delivered)
    requires Inv(r) && i < |r.running|
    ensures var r' := EndStep(r, i, result);
            && (forall j | 0 <= j < |r'.running| ::
                  r'.running[j].0 in r'.table && r'.table[r'.running[j].0] == InProgress)
            && (forall j, k | 0 <= j < k < |r'.running| :: r'.running[j].0 != r'.running[k].0)
  {
    hide DropAt;
  }

  lemma EndMatches<L>(r: Receiver<L>, i: nat, result: Delivered)
    requires Inv(r) && i < |r.running|
    ensures RunsMatchTable(EndStep(r, i, result))
  {
    hide DropAt;
    EndMatchesRuns(r, i, result);
    var r', key := EndStep(r, i, result), r.running[i].0;
    forall k | k in r'.table && r'.table[k] == InProgress
      ensures exists j :: 0 <= j < |r'.running| && r'.running[j].0 == k
    {
      var j :| 0 <= j < |r.running| && r.running[j].0 == k;
      assert r'.running[if j < i then j else j - 1].0 == k;
    }
  }

  lemma EndInv<L>(r: Receiver<L>, i: nat, result: Delivered)
    requires Inv(r) && i < |r.running|
    ensures Inv(EndStep(r, i, result))
  {
    EndMatches(r, i, result);
    var r', key := EndStep(r, i, result), r.running[i].0;
    if result == Threw {
      SizeWithout(r.table, key);
    } else {
      assert r'.table.Keys == r.table.Keys;
    }
  }

  ghost function Exec<L>(r: Receiver<L>, es: seq<Event<L>>): (r': Receiver<L>)
    requires Inv(r)
    ensures Inv(r') && r'.cap == r.cap
    decreases |es|
  {
    if es == [] then r
    else
      match es[0]
      case Begin(key, tag) =>
        BeginInv(r, key, tag);
        Exec(Apply(r, es[0]), es[1..])
      case End(i, result) =>
        if i < |r.running| then
          EndInv(r, i, result);
          Exec(Apply(r, es[0]), es[1..])
        else Exec(r, es[1..])
  }

  // In every run: a message's non-throwing handler runs are its evictions,
  // plus one while its entry is completed; no message has two runs at once;
  // the table never outgrows its cap.
  lemma RunsBounded<L>(cap: nat, es: seq<Event<L>>, key: Key)
    ensures Inv<L>(Start(cap))
    ensures var r := Exec(Start<L>(cap), es);
            && r.okRuns[key] == r.evicted[key] + (if IsCompleted(r.table, key) then 1 else 0)
            && r.okRuns[key] <= 1 + r.evicted[key]
            && (forall i, j | 0 <= i < j < |r.running| :: r.running[i].0 != r.running[j].0)
            && |r.table| <= cap
  {
  }

  // What peek_dedup says of a key tells the key's whole past: completed exactly
  // when one more run than was evicted has returned, in progress exactly when
  // its handler runs now, unknown exactly when neither.
  lemma PeekTells<L>(cap: nat, es: seq<Event<L>>, key: Key)
    ensures Inv<L>(Start(cap))
    ensures var r := Exec(Start<L>(cap), es);
            var e := Found(r.table, key);
            && (e == Some(Completed) <==> r.okRuns[key] == r.evicted[key] + 1)
            && (e == Some(InProgress) <==> exists i :: 0 <= i < |r.running| && r.running[i].0 == key)
            && (e == None <==> r.okRuns[key] == r.evicted[key]
                               && forall i | 0 <= i < |r.running| :: r.running[i].0 != key)
  {
    var r := Exec(Start<L>(cap), es);
    assert RunsCounted(r) && RunsMatchTable(r);
    assert r.okRuns[key] == r.evicted[key] + if IsCompleted(r.table, key) then 1 else 0;
  }

  // A run in progress keeps its entry: no claim by anyone else removes it, and
  // claiming it again is refused.
  lemma InProgressKept<L>(r: Receiver<L>, i: nat, key: Key, tag: L)
    requires Inv(r) && i < |r.running|
    ensures var k, r' := r.running[i].0, BeginStep(r, key, tag);
            && k in r'.table && r'.table[k] == InProgress
            && (key == k ==> r' == r && Claim(r.cap, r.table, key).0 == Busy)
  {
  }

  // An overflow happens exactly when an unknown message meets a full table of
  // entries all in progress.
  lemma OverflowExactly(cap: nat, t: Table, key: Key)
    ensures Claim(cap, t, key).0 == Overflow
            <==> key !in t && |t| >= cap && forall k | k in t :: t[k] == InProgress
  {
    assert forall k | k in t :: t[k] == InProgress <==> !IsCompleted(t, k);
  }

  // What a claim evicts: one completed entry, the least, and only when a new
  // entry needs its place.
  lemma EvictsLeast(cap: nat, t: Table, key: Key)
    ensures var (v, t', victim) := Claim(cap, t, key);
            && (victim.Some? <==> key !in t && |t| >= cap && exists k :: IsCompleted(t, k))
            && (victim.Some? ==>
                  && IsCompleted(t, victim.value)
                  && (forall k :: IsCompleted(t, k) ==>
                        victim.value.msgId < k.msgId
                        || (victim.value.msgId == k.msgId && victim.value.sender <= k.sender))
                  && v == Fresh && t' == (t - {victim.value})[key := InProgress])
            && (victim.None? && v == Fresh ==> t' == t[key := InProgress])
            && (v != Fresh ==> t' == t)
  {
  }

  // A claim starts a run of the handler exactly when the key is unknown and has a
  // place; otherwise nothing changes.
  lemma BeginRuns<L>(r: Receiver<L>, key: Key, tag: L)
    requires Inv(r)
    ensures var r' := Apply(r, Begin(key, tag));
            if key !in r.table && (|r.table| < r.cap || exists k :: IsCompleted(r.table, k)) then
              && r'.running == r.running + [(key, tag)]
              && key in r'.table && r'.table[key] == InProgress && r'.okRuns == r.okRuns
              && (|r.table| < r.cap ==> r'.table == r.table[key := InProgress] && r'.evicted == r.evicted)
              && (|r.table| >= r.cap ==> exists k :: IsCompleted(r.table, k) && k !in r'.table
                                                     && r'.evicted == r.evicted + multiset{k})
            else r' == r
  {
  }

  // A run that ends is over; its key is then completed, or forgotten if the
  // handler threw, and no other key is touched.
  lemma EndRuns<L>(r: Receiver<L>, i: nat, result: Delivered)
    requires Inv(r) && i < |r.running|
    ensures var key, r' := r.running[i].0, Apply(r, End(i, result));
            && r'.running == DropAt(r.running, i) && r'.evicted == r.evicted
            && (if result == Threw then key !in r'.table && r'.okRuns == r.okRuns
                else IsCompleted(r'.table, key) && r'.okRuns == r.okRuns + multiset{key})
            && forall k | k != key :: (k in r'.table <==> k in r.table) && (k in r.table ==> r'.table[k] == r.table[k])
  {
    assert r.running[i].0 in r.table;
  }
}
