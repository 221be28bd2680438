module Collect {
  // Record collection over TCP: length-prefixed records written in groups, and
  // read back from any chunks into bounded batches.

  import opened Prelude
  import opened Framing

  datatype Config = Config(batchRecords: nat, batchBytes: nat, batchDelay: nat, maxRecord: nat)

  predicate ConfigOk(cfg: Config) {
    cfg.batchRecords > 0 && cfg.batchBytes > 0 && cfg.maxRecord > 0
  }

  // ---- record lists -----------------------------------------------------------

  function Total(rs: seq<Bytes>): nat {
    if rs == [] then 0 else Total(rs[..|rs| - 1]) + |rs[|rs| - 1]|
  }

  function Flat(batches: seq<seq<Bytes>>): seq<Bytes> {
    if batches == [] then [] else Flat(batches[..|batches| - 1]) + batches[|batches| - 1]
  }

  lemma TotalAdd(rs: seq<Bytes>, r: Bytes)
    ensures Total(rs + [r]) == Total(rs) + |r|
  {
    assert (rs + [r])[..|rs|] == rs;
  }

  lemma {:induction false} TotalAppend(a: seq<Bytes>, b: seq<Bytes>)
    ensures Total(a + b) == Total(a) + Total(b)
  {
    if b == [] {
      assert a + b == a;
    } else {
      var n := |b| - 1;
      assert (a + b)[..|a| + n] == a + b[..n];
      TotalAppend(a, b[..n]);
    }
  }

  lemma FlatAdd(batches: seq<seq<Bytes>>, b: seq<Bytes>)
    ensures Flat(batches + [b]) == Flat(batches) + b
  {
    assert (batches + [b])[..|batches|] == batches;
  }

  // A group or batch never exceeds the limits, except by being a single record.
  predicate Bounded(rs: seq<Bytes>, cfg: Config, overhead: nat) {
    && 1 <= |rs| <= cfg.batchRecords
    && (|rs| > 1 ==> Total(rs) + overhead * |rs| <= cfg.batchBytes)
  }

  // ---- the records of a byte stream --------------------------------------------------

  // Why parsing stops: too few bytes for a record, a length of zero or beyond the
  // limit, or one whose size with its header wraps 32 bits.
  datatype End = Short | Bad | Wraps

  datatype Parsed = Parsed(records: seq<Bytes>, rest: Bytes, end: End)

  function Ahead(r: Bytes, p: Parsed): Parsed {
    p.(records := [r] + p.records)
  }

  // Whole records from the front.
  function Records(s: Bytes, maxRecord: nat): Parsed
    decreases |s|
  {
    if |s| < 4 then Parsed([], s, Short)
    else
      var len := DecodeLength(s);
      if len == 0 || len > maxRecord then Parsed([], s, Bad)
      else if len >= U32 - 4 then Parsed([], s, Wraps)
      else if |s| < 4 + len then Parsed([], s, Short)
      else Ahead(s[4..4 + len], Records(s[4 + len..], maxRecord))
  }

  // 4u + len in 32 bits.
  function Extent(len: nat): nat {
    (4 + len) % U32
  }

  lemma ExtentIs(len: nat)
    requires len < U32
    ensures Extent(len) == 4 + len <==> len < U32 - 4
    ensures len >= U32 - 4 ==> Extent(len) < 4
  {
    if len >= U32 - 4 {
      assert (4 + len) % U32 == 4 + len - U32;
    }
  }

  function Then(front: seq<Bytes>, p: Parsed): Parsed {
    p.(records := front + p.records)
  }

  lemma NothingAhead(p: Parsed)
    ensures Then([], p) == p
  {
    assert [] + p.records == p.records;
  }

  lemma ThenAhead(r: Bytes, rs: seq<Bytes>, p: Parsed)
    ensures Ahead(r, Then(rs, p)) == Then([r] + rs, p)
  {
    Assoc([r], rs, p.records);
  }

  lemma SameLength(s: Bytes, t: Bytes)
    requires |s| >= 4
    ensures DecodeLength(s + t) == DecodeLength(s)
  {
  }

  // Parsing can stop anywhere and go on when more bytes are there.
  lemma {:induction false} RecordsMore(s: Bytes, t: Bytes, maxRecord: nat)
    ensures var p := Records(s, maxRecord);
            Records(s + t, maxRecord)
              == if p.end.Short? then Then(p.records, Records(p.rest + t, maxRecord)) else p.(rest := p.rest + t)
    decreases |s|
  {
    hide DecodeLength;
    var p := Records(s, maxRecord);
    NothingAhead(Records(s + t, maxRecord));
    if |s| >= 4 {
      SameLength(s, t);
      var len := DecodeLength(s);
      if 0 < len <= maxRecord && 4 + len <= |s| && len < U32 - 4 {
        var more := s[4 + len..];
        assert (s + t)[4..4 + len] == s[4..4 + len];
        assert (s + t)[4 + len..] == more + t;
        RecordsMore(more, t, maxRecord);
        ThenAhead(s[4..4 + len], Records(more, maxRecord).records, Records(p.rest + t, maxRecord));
      }
    }
  }

  // What is left over starts no whole record.
  lemma {:induction false} RestIsSettled(s: Bytes, maxRecord: nat)
    requires Records(s, maxRecord).end.Short?
    ensures Records(Records(s, maxRecord).rest, maxRecord) == Parsed([], Records(s, maxRecord).rest, Short)
    decreases |s|
  {
    hide DecodeLength;
    if |s| >= 4 {
      var len := DecodeLength(s);
      if 0 < len <= maxRecord && 4 + len <= |s| && len < U32 - 4 {
        RestIsSettled(s[4 + len..], maxRecord);
      }
    }
  }

  predicate Sized(rs: seq<Bytes>, maxRecord: nat) {
    forall i | 0 <= i < |rs| :: 1 <= |rs[i]| <= maxRecord && |rs[i]| < U32 - 4
  }

  lemma RecordsFirst(r: Bytes, more: Bytes, maxRecord: nat)
    requires 1 <= |r| <= maxRecord && |r| < U32 - 4
    ensures Records(Prefixed(r) + more, maxRecord) == Ahead(r, Records(more, maxRecord))
  {
    hide DecodeLength;
    PrefixedStarts(r, more);
  }

  // The parser reads back what was written, up to where the bytes end.
  lemma {:induction false} RecordsOfWire(rs: seq<Bytes>, tail: Bytes, maxRecord: nat)
    requires Sized(rs, maxRecord)
    ensures Records(Wire(rs) + tail, maxRecord) == Then(rs, Records(tail, maxRecord))
  {
    hide Records, Prefixed;
    if rs == [] {
      assert Wire(rs) + tail == tail;
      NothingAhead(Records(tail, maxRecord));
    } else {
      Assoc(Prefixed(rs[0]), Wire(rs[1..]), tail);
      RecordsFirst(rs[0], Wire(rs[1..]) + tail, maxRecord);
      RecordsOfWire(rs[1..], tail, maxRecord);
      ThenAhead(rs[0], rs[1..], Records(tail, maxRecord));
      assert rs == [rs[0]] + rs[1..];
    }
  }

  // A stream cut anywhere yields the records before the cut, and bytes are left
  // over exactly when the cut is inside a record.
  lemma {:induction false} RecordsOfPrefix(rs: seq<Bytes>, s: Bytes, maxRecord: nat)
    requires Sized(rs, maxRecord) && s <= Wire(rs)
    ensures var p := Records(s, maxRecord);
            && p.end.Short? && p.records <= rs
            && s == Wire(p.records) + p.rest
            && (p.records == rs <==> s == Wire(rs))
    decreases |rs|
  {
    if rs == [] {
    } else {
      var first, more := Prefixed(rs[0]), Wire(rs[1..]);
      PrefixedStarts(rs[0], more);
      if |s| < |first| {
        CutInFirst(rs, s, maxRecord);
      } else {
        var t := s[|first|..];
        assert s == first + t by {
          assert s[..|first|] == Wire(rs)[..|first|] == first;
        }
        assert t <= more by {
          assert s == Wire(rs)[..|s|];
          assert t == more[..|t|];
        }
        PrefixedStarts(rs[0], t);
        RecordsOfPrefix(rs[1..], t, maxRecord);
        var q := Records(t, maxRecord);
        assert ([rs[0]] + q.records)[1..] == q.records;
        Assoc(first, Wire(q.records), q.rest);
        assert rs == [rs[0]] + rs[1..];
        assert q.records == rs[1..] <==> [rs[0]] + q.records == rs;
      }
    }
  }

  lemma CutInFirst(rs: seq<Bytes>, s: Bytes, maxRecord: nat)
    requires rs != [] && Sized(rs, maxRecord) && s <= Wire(rs) && |s| < |Prefixed(rs[0])|
    ensures Records(s, maxRecord) == Parsed([], s, Short) && |s| < |Wire(rs)|
  {
    var w := Wire(rs);
    PrefixedStarts(rs[0], Wire(rs[1..]));
    if |s| >= 4 {
      assert s == w[..|s|];
      assert DecodeLength(s) == DecodeLength(w);
    }
  }

  // Every stream parses without a wrapped length, and every list of records
  // within the limit is read back, exactly when the limit keeps 4 + length in
  // 32 bits.
  lemma LimitIsExact(maxRecord: nat)
    ensures (forall s :: !Records(s, maxRecord).end.Wraps?) <==> maxRecord < U32 - 4
    ensures (forall rs: seq<Bytes> | InLimit(rs, maxRecord) :: Records(Wire(rs), maxRecord) == Parsed(rs, [], Short))
            <==> maxRecord < U32 - 4
  {
    if maxRecord < U32 - 4 {
      forall s ensures !Records(s, maxRecord).end.Wraps? {
        NeverWraps(s, maxRecord);
      }
      forall rs: seq<Bytes> | InLimit(rs, maxRecord) ensures Records(Wire(rs), maxRecord) == Parsed(rs, [], Short) {
        assert Wire(rs) + [] == Wire(rs) && rs + [] == rs;
        RecordsOfWire(rs, [], maxRecord);
      }
    } else {
      WrappedHeader(maxRecord);
      WrappedRecord(maxRecord);
    }
  }

  predicate InLimit(rs: seq<Bytes>, maxRecord: nat) {
    forall i | 0 <= i < |rs| :: 1 <= |rs[i]| <= maxRecord
  }

  lemma {:induction false} NeverWraps(s: Bytes, maxRecord: nat)
    requires maxRecord < U32 - 4
    ensures !Records(s, maxRecord).end.Wraps?
    decreases |s|
  {
    hide DecodeLength;
    if |s| >= 4 {
      var len := DecodeLength(s);
      if 0 < len <= maxRecord && 4 + len <= |s| {
        NeverWraps(s[4 + len..], maxRecord);
      }
    }
  }

  // The header of a record of 2^32 - 4 bytes: 4u + len is 0, so the record
  // counts as whole with none of its bytes there.
  lemma WrappedHeader(maxRecord: nat)
    requires maxRecord >= U32 - 4
    ensures DecodeLength([252, 255, 255, 255]) == U32 - 4 && Extent(U32 - 4) == 0
    ensures Records([252, 255, 255, 255], maxRecord) == Parsed([], [252, 255, 255, 255], Wraps)
  {
    ExtentIs(U32 - 4);
  }

  lemma WrappedRecord(maxRecord: nat)
    requires maxRecord >= U32 - 4
    ensures exists rs: seq<Bytes> :: InLimit(rs, maxRecord) && Records(Wire(rs), maxRecord) != Parsed(rs, [], Short)
  {
    var r: Bytes := seq(U32 - 4, _ => 0);
    var rs := [r];
    WireOne(r);
    PrefixedStarts(r, []);
    assert Prefixed(r) + [] == Prefixed(r) == Wire(rs);
    assert Records(Wire(rs), maxRecord).end.Wraps? by {
      hide DecodeLength;
      assert |Prefixed(r)| >= 4;
    }
    assert InLimit(rs, maxRecord);
  }

  // ---- emitting -----------------------------------------------------------------------

  // A socket with a script of write results; `sent` is what it took so far.
  class Socket {
    const script: seq<IoResult>
    var call: nat
    var sent: Bytes

    ghost predicate Valid()
      reads this
    {
      call <= |script|
    }

    constructor (script: seq<IoResult>)
      ensures Valid() && this.script == script && call == 0 && sent == []
    {
      this.script, call, sent := script, 0, [];
    }

    // write_complete
    method WriteComplete(data: Bytes) returns (ok: bool)
      requires Valid()
      modifies this
      ensures Valid() && sent == old(sent) + data[..Accepts(|data|, script[old(call)..])]
      ensures ok <==> Accepts(|data|, script[old(call)..]) == |data|
    {
      var off: nat := 0;
      ghost var total := Accepts(|data|, script[call..]);
      while off < |data|
        invariant off <= |data| && Valid() && sent == old(sent) + data[..off]
        invariant off + Accepts(|data| - off, script[call..]) == total
        decreases |script| - call
      {
        if call == |script| || Fails(script[call]) {
          return false;
        }
        assert script[call..][1..] == script[call + 1..];
        var n := Min(script[call].n, |data| - off);
        assert data[..off] + data[off..off + n] == data[..off + n];
        sent := sent + data[off..off + n];
        call := call + 1;
        off := off + n;
      }
      ok := true;
    }
  }

  // ---- when a group is written ---------------------------------------------------------

  // A group that ends before the to-th record has a reason to: it is full, the
  // next record does not fit, or there is none.
  ghost predicate Complete(group: seq<Bytes>, to: nat, cfg: Config, good: seq<Bytes>) {
    || |group| >= cfg.batchRecords || Total(group) + 4 * |group| >= cfg.batchBytes
    || (to < |good|
        && (|group| + 1 > cfg.batchRecords || Total(group) + 4 * |group| + (4 + |good[to]|) > cfg.batchBytes))
    || to == |good|
  }

  ghost predicate AllComplete(groups: seq<seq<Bytes>>, cfg: Config, good: seq<Bytes>) {
    forall j | 0 <= j < |groups| :: Complete(groups[j], |Flat(groups[..j + 1])|, cfg, good)
  }

  lemma Front(batches: seq<seq<Bytes>>, b: seq<Bytes>, n: nat)
    requires n <= |batches| + 1
    ensures (batches + [b])[..n] == if n <= |batches| then batches[..n] else batches + [b]
  {
  }

  lemma OneMoreComplete(groups: seq<seq<Bytes>>, g: seq<Bytes>, cfg: Config, good: seq<Bytes>)
    requires AllComplete(groups, cfg, good) && Complete(g, |Flat(groups)| + |g|, cfg, good)
    ensures AllComplete(groups + [g], cfg, good)
  {
    hide AllComplete, Complete, Flat;
    var more := groups + [g];
    forall j | 0 <= j < |more| ensures Complete(more[j], |Flat(more[..j + 1])|, cfg, good) {
      CompleteAt(groups, g, cfg, good, j);
    }
    assert AllComplete(more, cfg, good) by { AllCompleteIs(more, cfg, good); }
  }

  lemma CompleteAt(groups: seq<seq<Bytes>>, g: seq<Bytes>, cfg: Config, good: seq<Bytes>, j: nat)
    requires AllComplete(groups, cfg, good) && Complete(g, |Flat(groups)| + |g|, cfg, good) && j <= |groups|
    ensures var more := groups + [g]; Complete(more[j], |Flat(more[..j + 1])|, cfg, good)
  {
    hide Complete, Flat;
    Front(groups, g, j + 1);
    FlatAdd(groups, g);
    if j < |groups| {
      assert Complete(groups[j], |Flat(groups[..j + 1])|, cfg, good);
    }
  }

  lemma AllCompleteIs(groups: seq<seq<Bytes>>, cfg: Config, good: seq<Bytes>)
    requires forall j | 0 <= j < |groups| :: Complete(groups[j], |Flat(groups[..j + 1])|, cfg, good)
    ensures AllComplete(groups, cfg, good)
  {
    hide Complete, Flat;
  }

  datatype EmitError = NoError | InvalidArgument | MessageSize | WriteError

  datatype EmitResult = EmitResult(records: nat, recordBytes: nat, writes: nat, err: EmitError)

  // The group under construction and the result, with what was flushed so far.
  class Emitter {
    const cfg: Config
    const socket: Socket
    var buf: Bytes
    var grouped: nat
    var groupedWire: nat
    var groupedPayload: nat
    var records: nat
    var recordBytes: nat
    var writes: nat
    ghost const good: seq<Bytes>
    ghost var group: seq<Bytes>
    ghost var groups: seq<seq<Bytes>>

    ghost predicate Valid()
      reads this, socket
    {
      && socket.Valid() && ConfigOk(cfg)
      && buf == Wire(group) && grouped == |group| && groupedPayload == Total(group)
      && groupedWire == Total(group) + 4 * |group|
      && records == |Flat(groups)| && recordBytes == Total(Flat(groups)) && writes == |groups|
      && (group != [] ==> Bounded(group, cfg, 4))
      && (forall i | 0 <= i < |groups| :: Bounded(groups[i], cfg, 4)) && AllComplete(groups, cfg, good)
    }

    constructor (cfg: Config, socket: Socket, ghost good: seq<Bytes>)
      requires socket.Valid() && ConfigOk(cfg)
      ensures Valid() && this.cfg == cfg && this.socket == socket && this.good == good && group == [] && groups == []
    {
      this.cfg, this.socket, this.good := cfg, socket, good;
      buf, grouped, groupedWire, groupedPayload := [], 0, 0, 0;
      records, recordBytes, writes := 0, 0, 0;
      group, groups := [], [];
    }

    // flush_emit_group: one complete write of the group, or a failed one that
    // leaves a prefix of it on the wire.
    method Flush() returns (ok: bool)
      requires Valid() && (group != [] ==> Complete(group, |Flat(groups)| + |group|, cfg, good))
      modifies this, socket
      ensures socket.Valid() && group == (if ok then [] else old(group))
      ensures ok ==> Valid() && socket.sent == old(socket.sent) + Wire(old(group))
                     && Flat(groups) == old(Flat(groups)) + old(group)
      ensures !ok ==> socket.sent < old(socket.sent) + Wire(old(group)) && old(socket.sent) <= socket.sent
                      && Valid() && groups == old(groups)
    {
      hide Bounded, Wire, Total, Flat, Complete, AllComplete;
      WireEmpty(group);
      if buf == [] {
        assert socket.sent + [] == socket.sent && Flat(groups) + [] == Flat(groups);
        return true;
      }
      ok := socket.WriteComplete(buf);
      if !ok {
        return;
      }
      WireNothing();
      assert Wire(group)[..|Wire(group)|] == Wire(group);
      FlatAdd(groups, group);
      TotalAppend(Flat(groups), group);
      OneMoreComplete(groups, group, cfg, good);
      records, recordBytes, writes := records + grouped, recordBytes + groupedPayload, writes + 1;
      groups := groups + [group];
      buf, grouped, groupedWire, groupedPayload, group := [], 0, 0, 0, [];
    }

    // One well-sized record into the group.
    method Add(r: Bytes)
      requires Valid() && |r| > 0
      requires group == [] || (grouped + 1 <= cfg.batchRecords && groupedWire + 4 + |r| <= cfg.batchBytes)
      modifies this
      ensures Valid() && group == old(group) + [r] && groups == old(groups)
    {
      hide Wire, Total, Flat;
      WireNothing();
      WireAppend(group, [r]);
      WireOne(r);
      TotalAdd(group, r);
      Assoc(buf, EncodeLength(|r|), r);
      buf := buf + EncodeLength(|r|) + r;
      grouped, groupedWire, groupedPayload := grouped + 1, groupedWire + 4 + |r|, groupedPayload + |r|;
      group := group + [r];
    }
  }

  lemma WireNothing()
    ensures Wire([]) == [] && Total([]) == 0 && Flat([]) == []
  {
  }

  lemma WireEmpty(rs: seq<Bytes>)
    ensures Wire(rs) == [] <==> rs == []
  {
  }

  // A span may have no data; the emitter stops at the first unusable one.
  predicate Usable(r: Option<Bytes>, maxRecord: nat) {
    r.Some? && 1 <= |r.value| <= maxRecord
  }

  function Good(rs: seq<Option<Bytes>>, maxRecord: nat): (g: seq<Bytes>)
    ensures |g| <= |rs|
  {
    if rs == [] || !Usable(rs[0], maxRecord) then [] else [rs[0].value] + Good(rs[1..], maxRecord)
  }

  lemma {:induction false} GoodAt(rs: seq<Option<Bytes>>, maxRecord: nat, i: nat)
    requires i <= |Good(rs, maxRecord)|
    ensures i < |rs| && Usable(rs[i], maxRecord) ==>
              i < |Good(rs, maxRecord)| && Good(rs, maxRecord)[i] == rs[i].value
    ensures i == |rs| || !Usable(rs[i], maxRecord) ==> i == |Good(rs, maxRecord)|
  {
    if rs != [] && Usable(rs[0], maxRecord) && i > 0 {
      GoodAt(rs[1..], maxRecord, i - 1);
    }
  }

  // emit_tcp.  The wire gets a prefix of the usable records in wire form, all
  // of it when no write fails; the counts are those of the groups completely
  // written, and every group keeps the limits.
  method EmitTcp(cfg: Config, rs: seq<Option<Bytes>>, socket: Socket)
    returns (result: EmitResult, ghost groups: seq<seq<Bytes>>)
    requires socket.Valid() && socket.sent == []
    modifies socket
    ensures socket.Valid() && socket.sent <= Wire(Good(rs, cfg.maxRecord))
    ensures rs != [] && !ConfigOk(cfg) ==> result.err == InvalidArgument && socket.sent == []
    ensures rs == [] || ConfigOk(cfg) ==>
              var good := Good(rs, cfg.maxRecord);
              && (result.err == NoError <==> |good| == |rs| && socket.sent == Wire(good))
              && (result.err == MessageSize <==> |good| < |rs| && socket.sent == Wire(good))
    ensures Flat(groups) <= Good(rs, cfg.maxRecord) && Wire(Flat(groups)) <= socket.sent
    ensures result.records == |Flat(groups)| && result.recordBytes == Total(Flat(groups)) && result.writes == |groups|
    ensures forall i | 0 <= i < |groups| :: Bounded(groups[i], cfg, 4)
    ensures AllComplete(groups, cfg, Good(rs, cfg.maxRecord))
  {
    groups := [];
    ghost var good := Good(rs, cfg.maxRecord);
    if |rs| == 0 {
      return EmitResult(0, 0, 0, NoError), groups;
    }
    if !ConfigOk(cfg) {
      return EmitResult(0, 0, 0, InvalidArgument), groups;
    }
    var e := new Emitter(cfg, socket, good);
    var i: nat := 0;
    WireNothing();
    assert good[..0] == [];
    while i < |rs|
      invariant i <= |good| && e.cfg == cfg && e.socket == socket && fresh(e)
      invariant Emitting(e, good, i)
    {
      hide Wire, Flat, Total, Bounded, Good, Emitting, AllComplete;
      GoodAt(rs, cfg.maxRecord, i);
      if !Usable(rs[i], cfg.maxRecord) {
        assert good[..i] == good;
        var ok := FlushGroup(e, good, i);
        return EmitResult(e.records, e.recordBytes, e.writes, if ok then MessageSize else WriteError), e.groups;
      }
      var ok := EmitOne(e, good, i, rs[i].value);
      if !ok {
        return EmitResult(e.records, e.recordBytes, e.writes, WriteError), e.groups;
      }
      i := i + 1;
    }
    hide Wire, Flat, Total, Bounded, Good, Emitting, AllComplete;
    GoodAt(rs, cfg.maxRecord, i);
    assert good[..i] == good;
    var ok := FlushGroup(e, good, i);
    return EmitResult(e.records, e.recordBytes, e.writes, if ok then NoError else WriteError), e.groups;
  }

  // The first i records are flushed or in the group.
  ghost predicate Emitting(e: Emitter, good: seq<Bytes>, i: nat)
    reads e, e.socket
  {
    && e.Valid() && e.good == good && i <= |good| && Flat(e.groups) + e.group == good[..i]
    && e.socket.sent == Wire(Flat(e.groups))
  }

  // One turn of the emitting loop.
  method EmitOne(e: Emitter, ghost good: seq<Bytes>, ghost i: nat, r: Bytes) returns (ok: bool)
    requires Emitting(e, good, i) && i < |good| && r == good[i] && |r| > 0
    modifies e, e.socket
    ensures ok ==> Emitting(e, good, i + 1)
    ensures !ok ==> Broken(e, good)
  {
    hide Wire, Flat, Total, Bounded;
    if e.grouped > 0 && (e.grouped + 1 > e.cfg.batchRecords || e.groupedWire + (4 + |r|) > e.cfg.batchBytes) {
      ok := FlushGroup(e, good, i);
      if !ok {
        return;
      }
    }
    Assoc(Flat(e.groups), e.group, [r]);
    e.Add(r);
    assert good[..i + 1] == good[..i] + [r];
    ok := true;
    if e.grouped >= e.cfg.batchRecords || e.groupedWire >= e.cfg.batchBytes {
      ok := FlushGroup(e, good, i + 1);
    }
  }

  // A write failed part way; what was counted is on the wire.
  ghost predicate Broken(e: Emitter, good: seq<Bytes>)
    reads e, e.socket
  {
    && e.Valid() && e.good == good && e.socket.sent < Wire(good)
    && Wire(Flat(e.groups)) <= e.socket.sent && Flat(e.groups) <= good
  }

  // A flush inside the emitting loop, seen from the whole list of records.
  method FlushGroup(e: Emitter, ghost good: seq<Bytes>, ghost i: nat) returns (ok: bool)
    requires Emitting(e, good, i) && (e.group != [] ==> Complete(e.group, i, e.cfg, good))
    modifies e, e.socket
    ensures ok ==> Emitting(e, good, i) && e.Valid()
    ensures ok ==> e.group == [] && Flat(e.groups) == good[..i] && e.socket.sent == Wire(good[..i])
    ensures !ok ==> Broken(e, good)
  {
    hide Wire, Flat, Total, Bounded;
    WireAppend(Flat(e.groups), e.group);
    WireAppend(good[..i], good[i..]);
    assert good == good[..i] + good[i..];
    ok := e.Flush();
    assert ok ==> Flat(e.groups) + [] == Flat(e.groups);
  }

  // ---- batches --------------------------------------------------------------------------

  // record_batch: the bytes of all records in one buffer, and where each lies.
  class RecordBatch {
    var bytes: Bytes
    var items: seq<(nat, nat)>
    var payload: nat
    ghost var contents: seq<Bytes>

    ghost predicate Valid()
      reads this
    {
      && |items| == |contents| && payload == Total(contents)
      && forall i | 0 <= i < |items| ::
           items[i].0 + items[i].1 <= |bytes| && bytes[items[i].0..items[i].0 + items[i].1] == contents[i]
    }

    constructor ()
      ensures Valid() && contents == []
    {
      bytes, items, payload, contents := [], [], 0, [];
    }

    method Add(data: Bytes)
      requires Valid()
      modifies this
      ensures Valid() && contents == old(contents) + [data]
    {
      hide Total;
      TotalAdd(contents, data);
      items := items + [(|bytes|, |data|)];
      bytes := bytes + data;
      payload := payload + |data|;
      contents := contents + [data];
    }

    // An index out of range gives an empty record.
    method Get(index: nat) returns (data: Bytes)
      requires Valid()
      ensures data == if index < |contents| then contents[index] else []
    {
      if index >= |items| {
        return [];
      }
      var (offset, size) := items[index];
      data := bytes[offset..offset + size];
    }

    method Clear()
      modifies this
      ensures Valid() && contents == []
    {
      bytes, items, payload, contents := [], [], 0, [];
    }
  }

  // ---- collecting -----------------------------------------------------------------------

  // A read fills at most the 64 KB buffer.
  type Chunk = b: Bytes | |b| <= 0x1_0000

  datatype Event =
    | Read(bytes: Chunk)   // an empty read is the end of the stream
    | TimedOut             // the read's timeout, armed while a batch is open
    | Expired              // the clock, looked at before a read
    | Broken(code: nat)

  datatype Outcome =
    | Waiting              // no event left: still reading
    | Stopped              // the sink declined; err == 0
    | Closed               // end of stream between records; err == 0
    | Truncated            // end of stream inside a record; EPROTO
    | Oversize             // a length of zero or beyond the limit; EMSGSIZE
    | ReadError(code: nat)
    | Invalid              // EINVAL
    | Overrun              // a record is taken whose bytes are not there: undefined

  // The bytes read before the stream ends or breaks.
  function Stream(events: seq<Event>): Bytes {
    if events == [] || events[0].Broken? || events[0] == Read([]) then []
    else (if events[0].Read? then events[0].bytes else []) + Stream(events[1..])
  }

  // How it ends, given the bytes left over.
  function Ending(events: seq<Event>, rest: Bytes): Outcome {
    if events == [] then Waiting
    else if events[0].Broken? then ReadError(events[0].code)
    else if events[0] == Read([]) then if rest == [] then Closed else Truncated
    else Ending(events[1..], rest)
  }

  datatype Stats = Stats(records: nat, batches: nat, recordBytes: nat)

  // ---- when a batch goes out ----------------------------------------------------------

  predicate Timer(e: Event) {
    e.TimedOut? || e.Expired?
  }

  // How many whole records have been read when event k comes.
  function Mark(events: seq<Event>, k: nat, maxRecord: nat): nat
    requires k <= |events|
  {
    |Records(Stream(events[..k]), maxRecord).records|
  }

  // The records of a whole run, how many were there at each timer, and whether
  // the run comes to an end.
  datatype Plan = Plan(records: seq<Bytes>, marks: set<nat>, ended: bool)

  ghost function PlanOf(events: seq<Event>, maxRecord: nat): Plan {
    var p := Records(Stream(events), maxRecord);
    Plan(p.records, set k | 0 <= k < |events| && Timer(events[k]) :: Mark(events, k, maxRecord),
         !p.end.Short? || Ending(events, p.rest) != Waiting)
  }

  // A batch that ends before the to-th record has a reason to: it is full, the
  // delay is zero, the next record does not fit, a timer fires, or the run ends.
  ghost predicate Due(batch: seq<Bytes>, to: nat, cfg: Config, plan: Plan) {
    || |batch| >= cfg.batchRecords || Total(batch) >= cfg.batchBytes
    || cfg.batchDelay == 0
    || (to < |plan.records|
        && (|batch| + 1 > cfg.batchRecords || Total(batch) + |plan.records[to]| > cfg.batchBytes))
    || to in plan.marks
    || (plan.ended && to == |plan.records|)
  }

  ghost predicate AllDue(batches: seq<seq<Bytes>>, cfg: Config, plan: Plan) {
    forall j | 0 <= j < |batches| :: Due(batches[j], |Flat(batches[..j + 1])|, cfg, plan)
  }

  lemma OneMoreDue(batches: seq<seq<Bytes>>, b: seq<Bytes>, cfg: Config, plan: Plan)
    requires AllDue(batches, cfg, plan) && Due(b, |Flat(batches)| + |b|, cfg, plan)
    ensures AllDue(batches + [b], cfg, plan)
  {
    hide AllDue, Due, Flat;
    var more := batches + [b];
    forall j | 0 <= j < |more| ensures Due(more[j], |Flat(more[..j + 1])|, cfg, plan) {
      DueAt(batches, b, cfg, plan, j);
    }
    assert AllDue(more, cfg, plan) by { AllDueIs(more, cfg, plan); }
  }

  lemma DueAt(batches: seq<seq<Bytes>>, b: seq<Bytes>, cfg: Config, plan: Plan, j: nat)
    requires AllDue(batches, cfg, plan) && Due(b, |Flat(batches)| + |b|, cfg, plan) && j <= |batches|
    ensures var more := batches + [b]; Due(more[j], |Flat(more[..j + 1])|, cfg, plan)
  {
    hide Due, Flat;
    Front(batches, b, j + 1);
    FlatAdd(batches, b);
    if j < |batches| {
      assert Due(batches[j], |Flat(batches[..j + 1])|, cfg, plan);
    }
  }

  lemma AllDueIs(batches: seq<seq<Bytes>>, cfg: Config, plan: Plan)
    requires forall j | 0 <= j < |batches| :: Due(batches[j], |Flat(batches[..j + 1])|, cfg, plan)
    ensures AllDue(batches, cfg, plan)
  {
    hide Due, Flat;
  }

  // Everything read before a timer has been delivered.
  ghost predicate Served(events: seq<Event>, i: nat, maxRecord: nat, flat: seq<Bytes>) {
    forall k | 0 <= k < i && k < |events| && Timer(events[k]) ::
      Records(Stream(events[..k]), maxRecord).records <= flat
  }

  lemma {:induction false} FlatGrows(a: seq<seq<Bytes>>, b: seq<seq<Bytes>>)
    requires a <= b
    ensures Flat(a) <= Flat(b)
    decreases |b|
  {
    if |a| < |b| {
      FlatGrows(a, b[..|b| - 1]);
    } else {
      assert a == b;
    }
  }

  // The stream up to an event that does not end it.
  predicate Goes(e: Event) {
    !e.Broken? && e != Read([])
  }

  lemma {:induction false} StreamUpTo(events: seq<Event>, i: nat)
    requires i < |events| && forall j | 0 <= j < i :: Goes(events[j])
    ensures Stream(events[..i + 1])
            == Stream(events[..i]) + (if Goes(events[i]) && events[i].Read? then events[i].bytes else [])
    ensures Stream(events) == Stream(events[..i]) + Stream(events[i..])
  {
    if i == 0 {
      assert events[..1][1..] == [] && events[..0] == [] && events[0..] == events;
      assert Stream(events[..1]) == if Goes(events[0]) && events[0].Read? then events[0].bytes + [] else [];
    } else {
      hide Stream;
      assert Goes(events[0]);
      assert events[..i + 1][1..] == events[1..][..i] && events[..i][1..] == events[1..][..i - 1];
      assert events[1..][i - 1..] == events[i..];
      StreamFirst(events);
      StreamFirst(events[..i]);
      StreamFirst(events[..i + 1]);
      StreamUpTo(events[1..], i - 1);
      var first: Bytes := if events[0].Read? then events[0].bytes else [];
      Assoc(first, Stream(events[1..][..i - 1]), Stream(events[i..]));
      Assoc(first, Stream(events[1..][..i - 1]), if Goes(events[i]) && events[i].Read? then events[i].bytes else []);
    }
  }

  lemma StreamFirst(events: seq<Event>)
    requires events != [] && Goes(events[0])
    ensures Stream(events) == (if events[0].Read? then events[0].bytes else []) + Stream(events[1..])
  {
  }

  lemma {:induction false} StreamPrefix(events: seq<Event>, k: nat)
    requires k <= |events|
    ensures Stream(events[..k]) <= Stream(events)
  {
    if k > 0 {
      assert events[..k][1..] == events[1..][..k - 1];
      StreamPrefix(events[1..], k - 1);
    } else {
      assert Stream(events[..0]) == [];
    }
  }

  // What a prefix of the stream holds whole is among what the stream holds.
  lemma RecordsOfPart(events: seq<Event>, k: nat, maxRecord: nat)
    requires k <= |events|
    ensures Records(Stream(events[..k]), maxRecord).records <= Records(Stream(events), maxRecord).records
  {
    hide Records;
    StreamPrefix(events, k);
    var a, b := Stream(events[..k]), Stream(events);
    assert b == a + b[|a|..];
    RecordsMore(a, b[|a|..], maxRecord);
  }

  class Collector {
    const cfg: Config
    const keep: nat -> bool     // the sink's answer to its k-th batch
    const batch: RecordBatch
    ghost const plan: Plan
    var pending: Bytes
    var batchOpen: bool
    var records: nat
    var recordBytes: nat
    var batches: nat
    ghost var delivered: seq<seq<Bytes>>

    ghost predicate Counted()
      reads `records, `recordBytes, `batches, `delivered
    {
      && records == |Flat(delivered)| && recordBytes == Total(Flat(delivered)) && batches == |delivered|
      && forall i | 0 <= i < |delivered| ::
           Bounded(delivered[i], cfg, 0) && (cfg.batchDelay == 0 ==> |delivered[i]| == 1)
    }

    // Every batch but perhaps the last was kept.
    ghost predicate Kept()
      reads `delivered
    {
      forall k: nat | k + 1 < |delivered| :: keep(k)
    }

    ghost predicate Running()
      reads `delivered
    {
      forall k: nat | k < |delivered| :: keep(k)
    }

    ghost predicate Valid()
      reads this, batch
    {
      && ConfigOk(cfg) && batch.Valid() && Counted()
      && (batchOpen <==> batch.contents != [])
      && (batch.contents != [] ==> Bounded(batch.contents, cfg, 0))
    }

    // Between records the batch has room, and with no delay it is empty.
    ghost predicate Resting()
      reads batch
    {
      && |batch.contents| < cfg.batchRecords && Total(batch.contents) < cfg.batchBytes
      && (cfg.batchDelay == 0 ==> batch.contents == [])
    }

    // Each batch had a reason to go out when it did.
    ghost predicate OnTime()
      reads `delivered
    {
      AllDue(delivered, cfg, plan)
    }

    // The next record of the run, or the length that ends it.
    ghost predicate Comes(at: nat, len: nat) {
      if at < |plan.records| then |plan.records[at]| == len else plan.ended && at == |plan.records|
    }

    // The bytes not parsed yet go on as the run does.
    ghost predicate Leads(log: seq<Bytes>, here: Bytes) {
      var p := Records(here, cfg.maxRecord);
      && log + p.records <= plan.records
      && (!p.end.Short? ==> plan.ended && |log| + |p.records| == |plan.records|)
    }

    // Everything delivered or about to be.
    ghost function Log(): seq<Bytes>
      reads `delivered, batch
    {
      Flat(delivered) + batch.contents
    }

    constructor (cfg: Config, keep: nat -> bool, ghost plan: Plan)
      requires ConfigOk(cfg)
      ensures Valid() && Resting() && Running() && this.cfg == cfg && this.keep == keep && fresh(batch)
      ensures OnTime() && this.plan == plan
      ensures pending == [] && delivered == [] && batch.contents == []
    {
      this.cfg, this.keep, this.plan := cfg, keep, plan;
      batch := new RecordBatch();
      pending, batchOpen, records, recordBytes, batches, delivered := [], false, 0, 0, 0, [];
    }

    // The deliver lambda.
    method Deliver() returns (goOn: bool)
      requires Valid() && Running() && (cfg.batchDelay == 0 ==> |batch.contents| <= 1)
      requires OnTime() && (batch.contents != [] ==> Due(batch.contents, |Log()|, cfg, plan))
      modifies this, batch
      ensures OnTime() && old(delivered) <= delivered
      ensures Valid() && Resting() && Kept() && Log() == old(Log()) == Flat(delivered) && pending == old(pending)
      ensures batch.contents == []
      ensures goOn ==> Running()
      ensures !goOn ==> delivered != [] && !keep(|delivered| - 1)
    {
      hide Flat, Total, Bounded, Due, AllDue;
      WireNothing();
      assert Flat(delivered) + [] == Flat(delivered);
      if |batch.items| == 0 {
        return true;
      }
      OneMoreDue(delivered, batch.contents, cfg, plan);
      FlatAdd(delivered, batch.contents);
      TotalAppend(Flat(delivered), batch.contents);
      assert Flat(delivered) + batch.contents + [] == Flat(delivered) + batch.contents;
      records, recordBytes, batches := records + |batch.items|, recordBytes + batch.payload, batches + 1;
      goOn := keep(batches - 1);
      delivered := delivered + [batch.contents];
      batch.Clear();
      batchOpen := false;
    }

    // A batch with no room for a record of this length goes out first.
    method MakeRoom(len: nat) returns (goOn: bool)
      requires Valid() && Resting() && Running() && OnTime() && Comes(|Log()|, len)
      modifies this, batch
      ensures OnTime() && old(delivered) <= delivered
      ensures Valid() && Resting() && Kept() && pending == old(pending) && Log() == old(Log())
      ensures goOn ==> Running()
      ensures goOn && batch.contents != [] ==>
                |batch.contents| < cfg.batchRecords && Total(batch.contents) + len <= cfg.batchBytes
      ensures !goOn ==> batch.contents == [] && delivered != [] && !keep(|delivered| - 1) && Log() == Flat(delivered)
    {
      hide Flat, Total;
      goOn := true;
      if |batch.items| > 0 && (|batch.items| + 1 > cfg.batchRecords || batch.payload + len > cfg.batchBytes) {
        goOn := Deliver();
      }
    }

    // The record whose bytes start here: it closes a batch it does not fit,
    // then joins the next, and a full batch goes out at once.
    method TakeRecord(at: Bytes, len: nat) returns (stop: Option<Outcome>)
      requires Valid() && Resting() && Running() && OnTime() && Comes(|Log()|, len)
      modifies this, batch
      ensures OnTime() && old(delivered) <= delivered
      ensures Valid() && Kept() && pending == old(pending)
      ensures stop.None? ==> len <= |at| && Resting() && Running() && Log() == old(Log()) + [at[..len]]
      ensures stop.Some? ==> stop.value == Overrun || stop.value == Stopped
      ensures stop == Some(Overrun) ==> |at| < len && Log() == old(Log())
      ensures stop == Some(Stopped) ==>
                && batch.contents == [] && delivered != [] && !keep(|delivered| - 1) && Log() == Flat(delivered)
                && (Log() == old(Log()) || (len <= |at| && Log() == old(Log()) + [at[..len]]))
    {
      hide Flat, Total;
      var goOn := MakeRoom(len);
      if !goOn {
        return Some(Stopped);
      }
      if |at| < len {
        return Some(Overrun);
      }
      goOn := Join(at[..len]);
      return if goOn then None else Some(Stopped);
    }

    method Join(r: Bytes) returns (goOn: bool)
      requires Valid() && Resting() && Running() && OnTime()
      requires batch.contents != [] ==>
                 |batch.contents| < cfg.batchRecords && Total(batch.contents) + |r| <= cfg.batchBytes
      modifies this, batch
      ensures OnTime() && old(delivered) <= delivered
      ensures Valid() && Resting() && Kept() && pending == old(pending) && Log() == old(Log()) + [r]
      ensures goOn ==> Running()
      ensures !goOn ==> batch.contents == [] && delivered != [] && !keep(|delivered| - 1) && Log() == Flat(delivered)
    {
      hide Flat, Total, AllDue;
      WireNothing();
      if |batch.items| == 0 {
        batchOpen := true;
      }
      TotalAdd(batch.contents, r);
      Assoc(Flat(delivered), batch.contents, [r]);
      batch.Add(r);
      goOn := true;
      if |batch.items| >= cfg.batchRecords || batch.payload >= cfg.batchBytes || cfg.batchDelay == 0 {
        goOn := Deliver();
      }
    }

    // One turn of the parsing loop, over the bytes not parsed yet: the size of
    // the record taken, or 0 when it is not whole.
    method Turn(here: Bytes) returns (stop: Option<Outcome>, size: nat)
      requires Valid() && Resting() && Running() && |here| >= 4
      requires OnTime() && Leads(Log(), here)
      requires U32 - 4 <= DecodeLength(here) <= cfg.maxRecord ==> |here| < 4 + DecodeLength(here)
      modifies this, batch
      ensures OnTime() && old(delivered) <= delivered
      ensures Valid() && Kept() && pending == old(pending)
      ensures stop.Some? ==> stop.value == Overrun
                             || (batch.contents == [] && (stop.value == Oversize || stop.value == Stopped))
      ensures stop.None? ==> Resting() && Running()
      ensures var p := Records(here, cfg.maxRecord);
              && (stop.None? && size == 0 ==> p == Parsed([], here, Short) && Log() == old(Log()))
              && (stop.None? && size > 0 ==>
                    && 4 < size == 4 + DecodeLength(here) <= |here| && size <= 4 + cfg.maxRecord
                    && p == Ahead(here[4..size], Records(here[size..], cfg.maxRecord))
                    && Log() == old(Log()) + [here[4..size]])
              && (stop == Some(Oversize) ==> p == Parsed([], here, Bad) && Log() == old(Log()) == Flat(delivered))
              && (stop == Some(Overrun) ==> p == Parsed([], here, Wraps) && Log() == old(Log()))
              && (stop == Some(Stopped) ==> Log() == Flat(delivered) <= old(Log()) + p.records
                                            && delivered != [] && !keep(|delivered| - 1))
    {
      hide Flat, Total, Bounded, Counted, DecodeLength, Extent, AllDue;
      var len := DecodeLength(here);
      if len == 0 || len > cfg.maxRecord {
        var _ := Deliver();
        return Some(Oversize), 0;
      }
      ExtentIs(len);
      if |here| < Extent(len) {
        return None, 0;
      }
      stop := TakeRecord(here[4..], len);
      size := Extent(len);
      ghost var p := Records(here, cfg.maxRecord);
      assert old(Log()) <= old(Log()) + p.records;
      if len < U32 - 4 {
        ghost var r, q := here[4..4 + len], Records(here[4 + len..], cfg.maxRecord);
        assert here[4..][..len] == r;
        Assoc(old(Log()), [r], q.records);
        assert old(Log()) + [r] <= old(Log()) + p.records;
      }
    }

    lemma RunningIsKept()
      requires Running()
      ensures Kept()
    {
    }

    // The parsing loop over the bytes at hand, at most one read more than what
    // was left over before.
    method Consume(ghost before: Bytes) returns (stop: Option<Outcome>)
      requires Valid() && Resting() && Running()
      requires before <= pending && |pending| - |before| <= 0x1_0000
      requires Records(before, cfg.maxRecord) == Parsed([], before, Short)
      requires OnTime() && Leads(Log(), pending)
      modifies this, batch
      ensures OnTime() && old(delivered) <= delivered
      ensures Valid() && Kept()
      ensures var p := Records(old(pending), cfg.maxRecord);
              && (stop.None? ==> Resting() && Running() && p.end.Short? && pending == p.rest
                                 && Log() == old(Log()) + p.records)
              && (stop == Some(Oversize) ==> p.end.Bad? && Log() == old(Log()) + p.records == Flat(delivered))
              && (stop == Some(Overrun) ==> p.end.Wraps? && Log() == old(Log()) + p.records)
              && (stop == Some(Stopped) ==> Log() == Flat(delivered) <= old(Log()) + p.records
                                            && delivered != [] && !keep(|delivered| - 1))
      ensures stop.Some? ==> stop.value == Overrun
                             || (batch.contents == [] && (stop.value == Oversize || stop.value == Stopped))
    {
      hide Flat, Total, Bounded, Counted, DecodeLength, Records, AllDue, Resting, Running;
      var off: nat := 0;
      ghost var p := Records(pending, cfg.maxRecord);
      ghost var log := Log();
      NothingAhead(p);
      assert pending[0..] == pending;
      ghost var done: seq<Bytes> := [];
      assert log + [] == log;
      while |pending| - off >= 4
        invariant off <= |pending| && pending == old(pending)
        invariant off > 0 ==> |pending| - off <= 0x1_0003
        invariant Valid() && Resting() && Running()
        invariant OnTime() && old(delivered) <= delivered && Leads(Log(), pending[off..])
        invariant Log() == log + done && p == Then(done, Records(pending[off..], cfg.maxRecord))
        decreases |pending| - off
      {
        ghost var here := pending[off..];
        FirstIsNear(before, pending, cfg.maxRecord);
        Assoc(log, done, Records(here, cfg.maxRecord).records);
        NothingAfter(done);
        var size;
        stop, size := Turn(pending[off..]);
        if stop.Some? {
          return;
        }
        if size == 0 {
          break;
        }
        ghost var r := here[4..size];
        assert here[size..] == pending[off + size..];
        Assoc(log, done, [r]);
        Assoc(done, [r], Records(here[size..], cfg.maxRecord).records);
        Assoc(log + done, [r], Records(here[size..], cfg.maxRecord).records);
        done := done + [r];
        off := off + size;
      }
      NothingAfter(done);
      if |pending| - off < 4 {
        FewBytes(pending[off..], cfg.maxRecord);
      }
      RunningIsKept();
      if off > 0 {
        pending := pending[off..];
      }
      stop := None;
    }
  }

  lemma FewBytes(s: Bytes, maxRecord: nat)
    requires |s| < 4
    ensures Records(s, maxRecord) == Parsed([], s, Short)
  {
  }

  // What one read can add to bytes that hold no whole record: a wrapped length
  // never has its record there, and few bytes lie behind the first record.
  lemma FirstIsNear(before: Bytes, pending: Bytes, maxRecord: nat)
    requires before <= pending && |pending| - |before| <= 0x1_0000 && |pending| >= 4
    requires Records(before, maxRecord) == Parsed([], before, Short)
    ensures var len := DecodeLength(pending);
            0 < len <= maxRecord ==>
              && (len >= U32 - 4 ==> |pending| < 4 + len)
              && |pending| <= 4 + len + 0x1_0003
  {
    if |before| >= 4 {
      assert pending == before + pending[|before|..];
      SameLength(before, pending[|before|..]);
      hide DecodeLength;
    }
  }

  lemma NothingAfter(done: seq<Bytes>)
    ensures done + [] == done
  {
  }

  // ---- the whole run -----------------------------------------------------------------------

  // What the sink and the caller see of a finished or waiting run.
  ghost predicate Outcomes(p: Parsed, events: seq<Event>, outcome: Outcome, flat: seq<Bytes>, held: seq<Bytes>) {
    if outcome == Stopped then flat <= p.records && held == []
    else
      && flat + held == p.records
      && (outcome != Waiting && outcome != Overrun ==> held == [])
      && outcome == (match p.end
                     case Short => Ending(events, p.rest)
                     case Bad => Oversize
                     case Wraps => Overrun)
  }

  // What the batches of a run satisfy: each had a reason to go out when it did,
  // and unless the sink stopped the run or it read past its bytes, a timer leaves
  // nothing undelivered that was read before it.
  ghost predicate Timely(cfg: Config, events: seq<Event>, outcome: Outcome, batches: seq<seq<Bytes>>) {
    && AllDue(batches, cfg, PlanOf(events, cfg.maxRecord))
    && (outcome != Stopped && outcome != Overrun ==> Served(events, |events|, cfg.maxRecord, Flat(batches)))
  }

  // The state of the loop before event i.
  ghost predicate Looping(c: Collector, events: seq<Event>, i: nat)
    reads c, c.batch
  {
    && i <= |events| && c.Valid() && c.Resting() && c.Running() && c.OnTime()
    && Records(Stream(events[..i]), c.cfg.maxRecord) == Parsed(c.Log(), c.pending, Short)
    && Served(events, i, c.cfg.maxRecord, Flat(c.delivered))
    && (forall j | 0 <= j < i :: Goes(events[j]))
  }

  // One event is one step further.
  lemma NextStream(events: seq<Event>, i: nat, log: seq<Bytes>, pending: Bytes, maxRecord: nat)
    requires i < |events| && forall j | 0 <= j < i :: Goes(events[j])
    requires Records(Stream(events[..i]), maxRecord) == Parsed(log, pending, Short)
    ensures var p := Records(Stream(events), maxRecord);
            p == Then(log, Records(pending + Stream(events[i..]), maxRecord)) && log <= p.records
    ensures !Goes(events[i]) ==>
              && Records(Stream(events), maxRecord) == Parsed(log, pending, Short)
              && Ending(events, pending) == Ending([events[i]], pending)
    ensures Goes(events[i]) && !events[i].Read? ==>
              Records(Stream(events[..i + 1]), maxRecord) == Parsed(log, pending, Short)
    ensures Goes(events[i]) && events[i].Read? ==>
              var q := Records(pending + events[i].bytes, maxRecord);
              && Records(Stream(events[..i + 1]), maxRecord) == Parsed(log + q.records, q.rest, q.end)
              && log + q.records <= Records(Stream(events), maxRecord).records
              && (!q.end.Short? ==> var p := Records(Stream(events), maxRecord);
                                    p.records == log + q.records && p.end == q.end)
  {
    hide Records;
    var before, at := Stream(events[..i]), events[i..];
    StreamUpTo(events, i);
    RecordsMore(before, Stream(at), maxRecord);
    assert at[0] == events[i];
    Settles(before, maxRecord);
    if !Goes(events[i]) {
      assert pending + Stream(at) == pending;
      NothingAfter(log);
      EndingFrom(events, i, pending);
    } else if !events[i].Read? {
      assert before + [] == before;
    } else {
      var bytes := events[i].bytes;
      RecordsMore(before, bytes, maxRecord);
      assert Stream(at) == bytes + Stream(at[1..]);
      Assoc(pending, bytes, Stream(at[1..]));
      RecordsMore(pending + bytes, Stream(at[1..]), maxRecord);
      var q := Records(pending + bytes, maxRecord);
      Assoc(log, q.records, Records(q.rest + Stream(at[1..]), maxRecord).records);
    }
  }

  lemma Settles(s: Bytes, maxRecord: nat)
    requires Records(s, maxRecord).end.Short?
    ensures var p := Records(s, maxRecord); Records(p.rest, maxRecord) == Parsed([], p.rest, Short)
  {
    RestIsSettled(s, maxRecord);
  }

  lemma {:induction false} EndingFrom(events: seq<Event>, i: nat, rest: Bytes)
    requires i < |events| && (forall j | 0 <= j < i :: Goes(events[j])) && !Goes(events[i])
    ensures Ending(events, rest) == Ending([events[i]], rest) != Waiting
  {
    if i > 0 {
      assert Goes(events[0]);
      EndingFrom(events[1..], i - 1, rest);
    }
  }

  lemma {:induction false} EndingNever(events: seq<Event>, rest: Bytes)
    requires forall e | e in events :: Goes(e)
    ensures Ending(events, rest) == Waiting
  {
    if events != [] {
      assert Goes(events[0]);
      EndingNever(events[1..], rest);
    }
  }

  // At a timer the open batch is due, and it serves what was read.
  lemma TimerIsDue(c: Collector, events: seq<Event>, i: nat)
    requires Looping(c, events, i) && i < |events| && Timer(events[i]) && c.plan == PlanOf(events, c.cfg.maxRecord)
    ensures Due(c.batch.contents, |c.Log()|, c.cfg, c.plan)
  {
    hide Records, Flat, Total;
    assert |c.Log()| == Mark(events, i, c.cfg.maxRecord);
  }

  // Where the stream ends, too.
  lemma EndIsDue(c: Collector, events: seq<Event>, i: nat)
    requires Looping(c, events, i) && i < |events| && !Goes(events[i]) && c.plan == PlanOf(events, c.cfg.maxRecord)
    ensures Due(c.batch.contents, |c.Log()|, c.cfg, c.plan)
  {
    hide Records, Flat, Total;
    NextStream(events, i, c.Log(), c.pending, c.cfg.maxRecord);
    EndingFrom(events, i, c.pending);
  }

  lemma ServedMore(events: seq<Event>, i: nat, maxRecord: nat, flat: seq<Bytes>, more: seq<Bytes>)
    requires Served(events, i, maxRecord, flat) && flat <= more
    requires i < |events| && Timer(events[i]) ==> Records(Stream(events[..i]), maxRecord).records <= more
    ensures Served(events, i + 1, maxRecord, more)
  {
    hide Records;
  }

  // Once everything is delivered, every timer is served.
  lemma AllServed(events: seq<Event>, maxRecord: nat, flat: seq<Bytes>)
    requires flat == Records(Stream(events), maxRecord).records
    ensures Served(events, |events|, maxRecord, flat)
  {
    hide Records;
    forall k | 0 <= k < |events| && Timer(events[k])
      ensures Records(Stream(events[..k]), maxRecord).records <= flat
    {
      RecordsOfPart(events, k, maxRecord);
    }
  }

  // A timer event: an open batch goes out.
  method OnTimer(c: Collector, ghost events: seq<Event>, ghost i: nat, expired: bool) returns (goOn: bool)
    requires Looping(c, events, i) && i < |events| && Timer(events[i]) && expired == events[i].Expired?
    requires c.plan == PlanOf(events, c.cfg.maxRecord)
    modifies c, c.batch
    ensures goOn ==> Looping(c, events, i + 1)
    ensures !goOn ==> c.Valid() && c.Kept() && c.OnTime() && c.delivered != [] && !c.keep(|c.delivered| - 1)
                      && c.batch.contents == [] && Flat(c.delivered) <= Records(Stream(events), c.cfg.maxRecord).records
  {
    hide Records, Flat, Total, Bounded, AllDue, Due, PlanOf, Served;
    NextStream(events, i, c.Log(), c.pending, c.cfg.maxRecord);
    TimerIsDue(c, events, i);
    goOn := true;
    ghost var flat, was := Flat(c.delivered), c.delivered;
    NothingAfter(Flat(c.delivered));
    if (if expired then c.batchOpen else |c.batch.items| > 0) {
      goOn := c.Deliver();
    }
    FlatGrows(was, c.delivered);
    ServedMore(events, i, c.cfg.maxRecord, flat, Flat(c.delivered));
  }

  // The end of the stream, or an error: what is open goes out.
  method OnEnd(c: Collector, ghost events: seq<Event>, ghost i: nat)
    requires Looping(c, events, i) && i < |events| && !Goes(events[i])
    requires c.plan == PlanOf(events, c.cfg.maxRecord)
    modifies c, c.batch
    ensures c.Valid() && c.Kept() && c.OnTime() && c.pending == old(c.pending) && c.batch.contents == []
    ensures var p := Records(Stream(events), c.cfg.maxRecord);
            p == Parsed(Flat(c.delivered), c.pending, Short) && Ending(events, p.rest) == Ending([events[i]], p.rest)
    ensures Served(events, |events|, c.cfg.maxRecord, Flat(c.delivered))
  {
    hide Records, Flat, Total, Bounded, AllDue, Due, PlanOf, Served;
    NextStream(events, i, c.Log(), c.pending, c.cfg.maxRecord);
    EndIsDue(c, events, i);
    var _ := c.Deliver();
    AllServed(events, c.cfg.maxRecord, Flat(c.delivered));
  }

  // Bytes arrive: the whole records at hand are taken.
  method OnBytes(c: Collector, ghost events: seq<Event>, ghost i: nat, bytes: Chunk) returns (stop: Option<Outcome>)
    requires Looping(c, events, i) && i < |events| && events[i] == Read(bytes) && bytes != []
    requires c.plan == PlanOf(events, c.cfg.maxRecord)
    modifies c, c.batch
    ensures stop.None? ==> Looping(c, events, i + 1)
    ensures stop.Some? ==>
              && (stop.value == Overrun || stop.value == Oversize || stop.value == Stopped)
              && c.Valid() && c.Kept() && c.OnTime()
              && (stop.value == Stopped ==> c.delivered != [] && !c.keep(|c.delivered| - 1))
              && Outcomes(Records(Stream(events), c.cfg.maxRecord), events, stop.value, Flat(c.delivered),
                          c.batch.contents)
              && (stop.value == Oversize ==> Served(events, |events|, c.cfg.maxRecord, Flat(c.delivered)))
  {
    hide Records, Flat, Total, Bounded, AllDue, Due, Served;
    NextStream(events, i, c.Log(), c.pending, c.cfg.maxRecord);
    Settles(Stream(events[..i]), c.cfg.maxRecord);
    ghost var flat, was, before := Flat(c.delivered), c.delivered, c.pending;
    c.pending := c.pending + bytes;
    stop := c.Consume(before);
    FlatGrows(was, c.delivered);
    ServedMore(events, i, c.cfg.maxRecord, flat, Flat(c.delivered));
    NothingAfter(Flat(c.delivered));
    if stop == Some(Oversize) {
      AllServed(events, c.cfg.maxRecord, Flat(c.delivered));
    }
  }

  // The reading loop.  Whatever the chunks and the timers, the sink gets the records
  // of the stream in order; it may stop the run, and otherwise the run ends as
  // the stream does: EPROTO exactly when bytes are left over.
  method ReadLoop(c: Collector, events: seq<Event>) returns (outcome: Outcome)
    requires c.Valid() && c.Resting() && c.Running() && c.pending == [] && c.delivered == [] && c.batch.contents == []
    requires c.OnTime() && c.plan == PlanOf(events, c.cfg.maxRecord)
    modifies c, c.batch
    ensures c.Valid() && c.Kept()
    ensures Outcomes(Records(Stream(events), c.cfg.maxRecord), events, outcome, Flat(c.delivered), c.batch.contents)
    ensures outcome == Stopped ==> c.delivered != [] && !c.keep(|c.delivered| - 1)
    ensures Timely(c.cfg, events, outcome, c.delivered)
  {
    hide Flat, Total, Bounded, Records, AllDue, Due, PlanOf, Served, Looping;
    var i := 0;
    Begins(c, events);
    while i < |events|
      invariant i <= |events| && Looping(c, events, i)
      decreases |events| - i
    {
      match events[i] {
      case Expired =>
        var goOn := OnTimer(c, events, i, true);
        if !goOn {
          return Stopped;
        }
      case TimedOut =>
        var goOn := OnTimer(c, events, i, false);
        if !goOn {
          return Stopped;
        }
      case Broken(code) =>
        OnEnd(c, events, i);
        NothingAfter(Flat(c.delivered));
        return ReadError(code);
      case Read(bytes) =>
        if bytes == [] {
          OnEnd(c, events, i);
          NothingAfter(Flat(c.delivered));
          return if c.pending != [] then Truncated else Closed;
        }
        var stop := OnBytes(c, events, i, bytes);
        if stop.Some? {
          return stop.value;
        }
      }
      i := i + 1;
    }
    Waits(c, events);
    outcome := Waiting;
  }

  lemma Begins(c: Collector, events: seq<Event>)
    requires c.Valid() && c.Resting() && c.Running() && c.pending == [] && c.delivered == [] && c.batch.contents == []
    requires c.OnTime()
    ensures Looping(c, events, 0)
  {
    assert events[..0] == [];
  }

  lemma Waits(c: Collector, events: seq<Event>)
    requires Looping(c, events, |events|)
    ensures c.Valid() && c.Kept() && c.OnTime() && Served(events, |events|, c.cfg.maxRecord, Flat(c.delivered))
    ensures Outcomes(Records(Stream(events), c.cfg.maxRecord), events, Waiting, Flat(c.delivered), c.batch.contents)
  {
    hide Records, Flat, Total, AllDue, Served;
    assert events[..|events|] == events;
    EndingNever(events, c.pending);
  }

  // collect_tcp: it needs a sink and positive limits, and then runs the loop.
  method CollectTcp(cfg: Config, sink: Option<nat -> bool>, events: seq<Event>)
    returns (outcome: Outcome, stats: Stats, ghost batches: seq<seq<Bytes>>, ghost held: seq<Bytes>)
    ensures outcome == Invalid <==> sink.None? || !ConfigOk(cfg)
    ensures outcome == Invalid ==> batches == []
    ensures outcome != Invalid ==>
              && Outcomes(Records(Stream(events), cfg.maxRecord), events, outcome, Flat(batches), held)
              && (forall k: nat | k + 1 < |batches| :: sink.value(k))
              && (outcome == Stopped ==> batches != [] && !sink.value(|batches| - 1))
              && (cfg.maxRecord < U32 - 4 ==> outcome != Overrun)
              && Timely(cfg, events, outcome, batches)
              && (outcome == Waiting && events != [] && Timer(events[|events| - 1]) ==> held == [])
    ensures stats == Stats(|Flat(batches)|, |batches|, Total(Flat(batches)))
    ensures forall i | 0 <= i < |batches| :: Bounded(batches[i], cfg, 0) && (cfg.batchDelay == 0 ==> |batches[i]| == 1)
  {
    batches, held, stats := [], [], Stats(0, 0, 0);
    WireNothing();
    if sink.None? || !ConfigOk(cfg) {
      return Invalid, stats, batches, held;
    }
    hide Flat, Total, Bounded, Records, AllDue, PlanOf, Served;
    var c := new Collector(cfg, sink.value, PlanOf(events, cfg.maxRecord));
    outcome := ReadLoop(c, events);
    EndingTellsRest(events, Records(Stream(events), cfg.maxRecord).rest);
    if cfg.maxRecord < U32 - 4 {
      NeverWraps(Stream(events), cfg.maxRecord);
    }
    stats := Stats(c.records, c.batches, c.recordBytes);
    batches, held := c.delivered, c.batch.contents;
    if outcome == Waiting && events != [] && Timer(events[|events| - 1]) {
      TimerEmpties(events, cfg.maxRecord, Flat(batches), held);
    }
  }

  // A last timer leaves nothing held.
  lemma TimerEmpties(events: seq<Event>, maxRecord: nat, flat: seq<Bytes>, held: seq<Bytes>)
    requires events != [] && Timer(events[|events| - 1]) && Served(events, |events|, maxRecord, flat)
    requires flat + held == Records(Stream(events), maxRecord).records
    ensures held == []
  {
    hide Records;
    var n := |events| - 1;
    TimerAdds(events);
    assert Records(Stream(events[..n]), maxRecord).records <= flat;
    assert |flat + held| <= |flat|;
  }

  lemma {:induction false} TimerAdds(events: seq<Event>)
    requires events != [] && Timer(events[|events| - 1])
    ensures Stream(events[..|events| - 1]) == Stream(events)
  {
    var n := |events| - 1;
    if n > 0 {
      assert events[..n][1..] == events[1..][..n - 1];
      TimerAdds(events[1..]);
    } else {
      assert events[..0] == [] && events[1..] == [];
    }
  }

  lemma RecordsOfNothing(maxRecord: nat)
    ensures Records([], maxRecord) == Parsed([], [], Short)
  {
  }

  // ---- end to end --------------------------------------------------------------------------

  // Records emitted over any short writes and collected over any chunks and
  // timers arrive in order, if the limit keeps 4 + length in 32 bits; and if
  // everything was written, the stream ended and the sink never declined, all of
  // them arrive and the run ends cleanly.
  method EmitAndCollect(cfg: Config, rs: seq<Option<Bytes>>, script: seq<IoResult>, events: seq<Event>,
                        keep: nat -> bool)
    returns (emitted: EmitResult, outcome: Outcome, ghost batches: seq<seq<Bytes>>, ghost wire: Bytes)
    ensures wire <= Wire(Good(rs, cfg.maxRecord))
    ensures Stream(events) == wire && cfg.maxRecord < U32 - 4 ==>
              && Flat(batches) <= Good(rs, cfg.maxRecord)
              && outcome != Oversize && outcome != Overrun
              && (emitted.err == NoError && outcome != Stopped && outcome != Waiting && outcome != Invalid ==>
                    && Flat(batches) == Good(rs, cfg.maxRecord) && |Good(rs, cfg.maxRecord)| == |rs|
                    && outcome != Truncated)
    ensures outcome == Invalid <==> !ConfigOk(cfg)
  {
    hide Flat, Bounded, Records, Wire, Good;
    var socket := new Socket(script);
    ghost var groups;
    emitted, groups := EmitTcp(cfg, rs, socket);
    wire := socket.sent;
    var stats;
    ghost var held;
    outcome, stats, batches, held := CollectTcp(cfg, Some(keep), events);
    NothingEmitted();
    if Stream(events) == wire && cfg.maxRecord < U32 - 4 && outcome != Invalid {
      Arrives(cfg, rs, events, outcome, batches, held);
    }
  }

  lemma NothingEmitted()
    ensures Flat([]) == []
  {
  }

  lemma Arrives(cfg: Config, rs: seq<Option<Bytes>>, events: seq<Event>, outcome: Outcome, batches: seq<seq<Bytes>>,
                held: seq<Bytes>)
    requires cfg.maxRecord < U32 - 4 && Stream(events) <= Wire(Good(rs, cfg.maxRecord))
    requires Outcomes(Records(Stream(events), cfg.maxRecord), events, outcome, Flat(batches), held)
    ensures var good := Good(rs, cfg.maxRecord);
            && Flat(batches) <= good && outcome != Oversize && outcome != Overrun
            && (Stream(events) == Wire(good) && outcome != Stopped && outcome != Waiting ==>
                  Flat(batches) == good && outcome != Truncated)
  {
    hide Flat, Records, Wire, Good;
    var good := Good(rs, cfg.maxRecord);
    GoodIsSized(rs, cfg.maxRecord);
    RecordsOfPrefix(good, Stream(events), cfg.maxRecord);
    EndingTellsRest(events, Records(Stream(events), cfg.maxRecord).rest);
    CleanEnd(good, Records(Stream(events), cfg.maxRecord));
    assert Flat(batches) <= Flat(batches) + held;
    assert Flat(batches) + [] == Flat(batches);
  }

  lemma {:induction false} GoodIsSized(rs: seq<Option<Bytes>>, maxRecord: nat)
    requires maxRecord < U32 - 4
    ensures Sized(Good(rs, maxRecord), maxRecord)
  {
    if rs != [] && Usable(rs[0], maxRecord) {
      GoodIsSized(rs[1..], maxRecord);
    }
  }

  lemma {:induction false} EndingTellsRest(events: seq<Event>, rest: Bytes)
    ensures Ending(events, rest) != Oversize && Ending(events, rest) != Overrun
    ensures Ending(events, rest) != Stopped && Ending(events, rest) != Invalid
    ensures Ending(events, rest) == Truncated ==> rest != []
    ensures Ending(events, rest) == Closed ==> rest == []
  {
    if events != [] {
      EndingTellsRest(events[1..], rest);
    }
  }

  // Nothing is left over after a whole list of records.
  lemma CleanEnd(rs: seq<Bytes>, p: Parsed)
    requires p.records == rs ==> Wire(p.records) + p.rest == Wire(rs)
    ensures p.records == rs ==> p.rest == []
  {
    if p.records == rs {
      assert |Wire(rs) + p.rest| == |Wire(rs)|;
    }
  }
}
