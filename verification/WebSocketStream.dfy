module WebSocketStream {
  // WebSocket frames over a stream: decoding from arbitrary chunks, payloads
  // scattered over several receive buffers, and gathered writes over short ones.

  import opened Prelude
  import opened WebSocketFrame

  // ---- segments -----------------------------------------------------------------

  function Join(segs: seq<Bytes>): Bytes {
    if segs == [] then [] else segs[0] + Join(segs[1..])
  }

  lemma {:induction false} JoinAppend(a: seq<Bytes>, b: seq<Bytes>)
    ensures Join(a + b) == Join(a) + Join(b)
  {
    if a == [] {
      assert a + b == b;
    } else {
      assert (a + b)[1..] == a[1..] + b;
      JoinAppend(a[1..], b);
    }
  }

  lemma JoinOne(s: Bytes)
    ensures Join([s]) == s
  {
    assert [s][1..] == [];
  }

  lemma JoinNone()
    ensures Join([]) == []
  {
  }

  // ---- writev_all -----------------------------------------------------------------

  lemma DropWhole(pending: seq<Bytes>, left: nat)
    requires pending != [] && |pending[0]| <= left <= |Join(pending)|
    ensures left - |pending[0]| <= |Join(pending[1..])|
    ensures Join(pending[1..])[left - |pending[0]|..] == Join(pending)[left..]
  {
    assert Join(pending) == pending[0] + Join(pending[1..]);
  }

  lemma DropPart(pending: seq<Bytes>, left: nat)
    requires pending != [] && left < |pending[0]|
    ensures left <= |Join(pending)|
    ensures Join([pending[0][left..]] + pending[1..]) == Join(pending)[left..]
  {
    assert ([pending[0][left..]] + pending[1..])[1..] == pending[1..];
    assert Join(pending) == pending[0] + Join(pending[1..]);
  }

  // The inner loop: drop what was sent from the front of the pending list.
  method Advance(iov: seq<Bytes>, n: nat) returns (pending: seq<Bytes>)
    requires n <= |Join(iov)|
    ensures Join(pending) == Join(iov)[n..]
    ensures n > 0 ==> |Join(pending)| < |Join(iov)|
    ensures pending == [] || iov != []
    ensures pending != [] ==> (EmptyLast(pending) <==> EmptyLast(iov))
    ensures pending == [] && n > 0 ==> iov != [] && !EmptyLast(iov)
    ensures n == 0 ==> pending == iov
  {
    hide Join;
    JoinNone();
    pending := iov;
    var left: nat := n;
    while left > 0 && pending != []
      invariant left <= n && left <= |Join(pending)|
      invariant Join(pending)[left..] == Join(iov)[n..]
      invariant pending == [] || iov != []
      invariant pending != [] ==> (EmptyLast(pending) <==> EmptyLast(iov))
      invariant pending == [] && n > 0 ==> left == 0 && iov != [] && !EmptyLast(iov)
      invariant n == 0 ==> pending == iov
      decreases left, |pending|
    {
      var front := pending[0];
      if left >= |front| {
        DropWhole(pending, left);
        left := left - |front|;
        pending := pending[1..];
      } else {
        DropPart(pending, left);
        pending := [front[left..]] + pending[1..];
        left := 0;
      }
    }
  }

  // Sends the exact concatenation, as far as the socket takes it.  It succeeds
  // exactly when everything was sent and the list does not end in an empty
  // entry: such an entry stays pending and the next, empty write is an error.
  method WritevAll(iov: seq<Bytes>, writes: seq<IoResult>) returns (ok: bool, sent: Bytes)
    ensures sent == Join(iov)[..Accepts(|Join(iov)|, writes)]
    ensures ok <==> iov == [] || (iov[|iov| - 1] != [] && sent == Join(iov))
  {
    hide Join, Accepts, EmptyLast;
    ghost var all := Join(iov);
    var pending := iov;
    sent := [];
    JoinNone();
    assert writes[0..] == writes && [] + all == all;
    var k := 0;
    while pending != []
      invariant k <= |writes|
      invariant all == sent + Join(pending)
      invariant |sent| + Accepts(|Join(pending)|, writes[k..]) == Accepts(|all|, writes)
      invariant pending == [] ==> iov == [] || (!EmptyLast(iov) && sent == all)
      invariant pending != [] ==> iov != [] && (EmptyLast(pending) <==> EmptyLast(iov))
      decreases |Join(pending)|
    {
      var bytes := Join(pending);
      if k == |writes| || Fails(writes[k]) || bytes == [] {
        AcceptsNothing(|bytes|, writes, k);
        LastOfJoin(pending);
        Cut(sent, bytes);
        LastEntry(iov);
        return false, sent;
      }
      var n := Min(writes[k].n, |bytes|);
      AcceptsStep(|bytes|, writes, k);
      SplitBytes(sent, bytes, n);
      sent := sent + bytes[..n];
      pending := Advance(pending, n);
      k := k + 1;
    }
    AcceptsNothing(0, writes, k);
    Cut(sent, []);
    if iov != [] {
      LastEntry(iov);
    }
    ok := true;
  }

  // The list ends in an empty entry.
  predicate EmptyLast(iov: seq<Bytes>) {
    iov != [] && iov[|iov| - 1] == []
  }

  lemma LastEntry(iov: seq<Bytes>)
    requires iov != []
    ensures EmptyLast(iov) <==> iov[|iov| - 1] == []
  {
  }

  lemma Cut(sent: Bytes, rest: Bytes)
    ensures sent == (sent + rest)[..|sent|]
    ensures rest == [] ==> sent + rest == sent
  {
  }

  lemma SplitBytes(sent: Bytes, bytes: Bytes, n: nat)
    requires n <= |bytes|
    ensures sent + bytes == (sent + bytes[..n]) + bytes[n..]
  {
  }

  lemma AcceptsNothing(left: nat, writes: seq<IoResult>, k: nat)
    requires k <= |writes| && (left == 0 || k == |writes| || Fails(writes[k]))
    ensures Accepts(left, writes[k..]) == 0
  {
  }

  lemma AcceptsStep(left: nat, writes: seq<IoResult>, k: nat)
    requires k < |writes| && left > 0 && !Fails(writes[k])
    ensures var n := Min(writes[k].n, left);
            Accepts(left, writes[k..]) == n + Accepts(left - n, writes[k + 1..])
  {
    assert writes[k..][1..] == writes[k + 1..];
  }

  // A list that ends in a non-empty entry has bytes in it.
  lemma {:induction false} LastOfJoin(iov: seq<Bytes>)
    requires iov != []
    ensures !EmptyLast(iov) ==> Join(iov) != []
  {
    if |iov| > 1 {
      LastOfJoin(iov[1..]);
    }
  }

  // Such a call: the socket takes everything, and the write still fails.
  method EmptyTailFails() returns (ok: bool, sent: Bytes)
    ensures sent == [1] && !ok
  {
    JoinOne([1]);
    JoinOne([]);
    assert [[1], []] == [[1]] + [[]];
    JoinAppend([[1]], [[]]);
    ok, sent := WritevAll([[1], []], [Moved(1), Moved(1)]);
  }

  // The header as write_frame builds it, in 14 bytes on the stack.
  method BuildHeader(f: Frame, masked: bool) returns (header: Bytes)
    ensures header == HeaderBytes(f, masked, f.key)
  {
    hide BigEndian, LengthField;
    EncodeSize(f, masked, f.key);
    FieldSize(|f.payload|, masked);
    var hdr := new byte[14];
    var p := PutLength(f, hdr, masked);
    if masked {
      p := PutBigEndian(hdr, p, f.key, 4);
    }
    header := hdr[..p];
  }

  lemma FieldSize(len: nat, mask: bool)
    ensures |LengthField(len, mask)| <= 9
  {
  }

  // write_frame: header and payload, without an empty second entry; no write
  // fails that the socket did not.
  method WriteFrame(f: Frame, masked: bool, writes: seq<IoResult>) returns (ok: bool, sent: Bytes)
    ensures sent == Written(f, masked)[..Accepts(|Written(f, masked)|, writes)]
    ensures ok <==> sent == Written(f, masked)
  {
    var header := BuildHeader(f, masked);
    hide HeaderBytes, Join;
    HeaderNonEmpty(f, masked);
    var iov := if |f.payload| > 0 then [header, f.payload] else [header];
    assert Join(iov) == Written(f, masked) by {
      JoinOne(header);
      JoinOne(f.payload);
      assert [header, f.payload] == [header] + [f.payload];
      JoinAppend([header], [f.payload]);
    }
    ok, sent := WritevAll(iov, writes);
  }

  lemma HeaderNonEmpty(f: Frame, masked: bool)
    ensures HeaderBytes(f, masked, f.key) != []
  {
  }

  // ---- a payload scattered over receive buffers ---------------------------------------

  // Where one payload piece lies in its receive buffer.
  datatype Iov = Iov(at: nat, len: nat)

  predicate Fits(segs: seq<Bytes>, iovs: seq<Iov>) {
    |iovs| <= |segs| && forall i | 0 <= i < |iovs| :: iovs[i].at + iovs[i].len <= |segs[i]|
  }

  // The bytes the pieces cover.
  function View(segs: seq<Bytes>, iovs: seq<Iov>): Bytes
    requires Fits(segs, iovs)
  {
    if iovs == [] then []
    else segs[0][iovs[0].at..iovs[0].at + iovs[0].len] + View(segs[1..], iovs[1..])
  }

  ghost predicate Measured(segs: seq<Bytes>, lens: seq<nat>) {
    |lens| == |segs| && forall i | 0 <= i < |segs| :: lens[i] == |segs[i]|
  }

  // No empty payload makes a piece, and no other ends in an empty one.
  ghost predicate EndsWell(iovs: seq<Iov>, remaining: nat, payloadLen: nat) {
    && (payloadLen == 0 ==> iovs == [])
    && (remaining == 0 < payloadLen ==> iovs != [] && iovs[|iovs| - 1].len > 0)
  }

  lemma EndsStep(iovs: seq<Iov>, v: Iov, remaining: nat, payloadLen: nat)
    requires 0 < remaining <= payloadLen && v.len <= remaining
    ensures EndsWell(iovs + [v], remaining - v.len, payloadLen)
  {
  }

  // The iovec-building loop of the multi-segment path.
  method Gather(ghost segs: seq<Bytes>, lens: seq<nat>, headerLen: nat, payloadLen: nat) returns (iovs: seq<Iov>)
    requires Measured(segs, lens)
    requires segs != [] && headerLen <= |segs[0]| && headerLen + payloadLen <= |Join(segs)|
    ensures Fits(segs, iovs) && View(segs, iovs) == Join(segs)[headerLen..headerLen + payloadLen]
    ensures EndsWell(iovs, 0, payloadLen)
  {
    hide Join, View, Gathering, Gathered, Fits, Measured, EndsWell;
    GatherStart(segs, headerLen, payloadLen);
    ghost var target := Gathered(segs, [], headerLen, payloadLen);
    iovs := [];
    var remaining: nat, offset: nat := payloadLen, headerLen;
    while remaining > 0 && |iovs| < |lens|
      invariant Gathering(segs, iovs, offset, remaining)
      invariant Gathered(segs, iovs, offset, remaining) == target
      invariant remaining <= payloadLen
      invariant EndsWell(iovs, remaining, payloadLen)
      decreases |lens| - |iovs|
    {
      GatherNext(segs, lens, iovs, offset, remaining);
      var available := lens[|iovs|] - offset;
      var take := Min(remaining, available);
      GatherStep(segs, iovs, offset, remaining, take);
      EndsStep(iovs, Iov(offset, take), remaining, payloadLen);
      iovs, remaining, offset := iovs + [Iov(offset, take)], remaining - take, 0;
    }
    GatherEnd(segs, lens, iovs, offset, remaining);
  }

  lemma GatherNext(segs: seq<Bytes>, lens: seq<nat>, iovs: seq<Iov>, offset: nat, remaining: nat)
    requires Measured(segs, lens) && Gathering(segs, iovs, offset, remaining) && 0 < remaining
    ensures |iovs| < |segs| == |lens| && offset <= |segs[|iovs|]| == lens[|iovs|]
  {
  }

  lemma GatherStart(segs: seq<Bytes>, offset: nat, remaining: nat)
    requires segs != [] && offset <= |segs[0]| && offset + remaining <= |Join(segs)|
    ensures Gathering(segs, [], offset, remaining) && EndsWell([], remaining, remaining)
    ensures Gathered(segs, [], offset, remaining) == Join(segs)[offset..offset + remaining]
  {
    assert segs[0..] == segs;
  }

  lemma GatherEnd(segs: seq<Bytes>, lens: seq<nat>, iovs: seq<Iov>, offset: nat, remaining: nat)
    requires Measured(segs, lens) && Gathering(segs, iovs, offset, remaining)
    requires remaining > 0 ==> |iovs| >= |lens|
    ensures remaining == 0 && Fits(segs, iovs)
    ensures Gathered(segs, iovs, offset, remaining) == View(segs, iovs)
  {
    hide View;
  }

  // The pieces so far, and where the next one starts.
  ghost predicate Gathering(segs: seq<Bytes>, iovs: seq<Iov>, offset: nat, remaining: nat) {
    && Fits(segs, iovs)
    && (|iovs| < |segs| ==> offset <= |segs[|iovs|]|)
    && (remaining > 0 ==> |iovs| < |segs| && offset + remaining <= |Join(segs[|iovs|..])|)
  }

  // What has been gathered and what is still to come.
  ghost function Gathered(segs: seq<Bytes>, iovs: seq<Iov>, offset: nat, remaining: nat): Bytes
    requires Gathering(segs, iovs, offset, remaining)
  {
    View(segs, iovs) + Part(segs[|iovs|..], offset, remaining)
  }

  // The bytes still to gather from the segments left.
  function Part(segs: seq<Bytes>, offset: nat, remaining: nat): Bytes {
    if remaining == 0 || offset + remaining > |Join(segs)| then []
    else Join(segs)[offset..offset + remaining]
  }

  lemma SliceOfTwo(a: Bytes, b: Bytes, offset: nat, n: nat, take: nat)
    requires offset <= |a| && offset + n <= |a| + |b| && take == Min(n, |a| - offset)
    ensures (a + b)[offset..offset + n] == a[offset..offset + take] + b[..n - take]
  {
  }

  lemma PartStep(segs: seq<Bytes>, offset: nat, remaining: nat, take: nat)
    requires segs != [] && offset <= |segs[0]| && 0 < remaining && offset + remaining <= |Join(segs)|
    requires take == Min(remaining, |segs[0]| - offset)
    ensures Part(segs, offset, remaining) == segs[0][offset..offset + take] + Part(segs[1..], 0, remaining - take)
    ensures remaining > take ==> remaining - take <= |Join(segs[1..])|
  {
    assert Join(segs) == segs[0] + Join(segs[1..]);
    SliceOfTwo(segs[0], Join(segs[1..]), offset, remaining, take);
  }

  lemma GatherStep(segs: seq<Bytes>, iovs: seq<Iov>, offset: nat, remaining: nat, take: nat)
    requires Gathering(segs, iovs, offset, remaining) && 0 < remaining
    requires take == Min(remaining, |segs[|iovs|]| - offset)
    ensures var next := iovs + [Iov(offset, take)];
            && Gathering(segs, next, 0, remaining - take)
            && Gathered(segs, next, 0, remaining - take) == Gathered(segs, iovs, offset, remaining)
  {
    var n, v := |iovs|, Iov(offset, take);
    assert segs[n..][1..] == segs[n + 1..];
    PartStep(segs[n..], offset, remaining, take);
    ViewAppend(segs, iovs, v);
    var piece, rest := segs[n][offset..offset + take], Part(segs[n + 1..], 0, remaining - take);
    Assoc(View(segs, iovs), piece, rest);
  }

  lemma {:induction false} ViewAppend(segs: seq<Bytes>, iovs: seq<Iov>, v: Iov)
    requires Fits(segs, iovs) && |iovs| < |segs| && v.at + v.len <= |segs[|iovs|]|
    ensures Fits(segs, iovs + [v])
    ensures View(segs, iovs + [v]) == View(segs, iovs) + segs[|iovs|][v.at..v.at + v.len]
  {
    if iovs == [] {
      assert ([v])[1..] == [];
    } else {
      assert (iovs + [v])[1..] == iovs[1..] + [v];
      ViewAppend(segs[1..], iovs[1..], v);
    }
  }

  // The receive buffers as values.
  ghost function Contents(bufs: seq<array<byte>>): (s: seq<Bytes>)
    reads bufs
    ensures |s| == |bufs| && forall i | 0 <= i < |bufs| :: s[i] == bufs[i][..]
  {
    if bufs == [] then [] else [bufs[0][..]] + Contents(bufs[1..])
  }

  // One piece unmasked where it lies.
  ghost predicate PieceDone(before: Bytes, after: Bytes, v: Iov, key: nat, off: nat) {
    && v.at + v.len <= |before| == |after|
    && after[v.at..v.at + v.len] == Masked(before[v.at..v.at + v.len], key, off)
  }

  function Offset(iovs: seq<Iov>): nat {
    if iovs == [] then 0 else iovs[0].len + Offset(iovs[1..])
  }

  lemma NoOffset()
    ensures Offset([]) == 0
  {
  }

  lemma {:induction false} OffsetAppend(iovs: seq<Iov>, v: Iov)
    ensures Offset(iovs + [v]) == Offset(iovs) + v.len
  {
    if iovs == [] {
      assert ([v])[1..] == [];
    } else {
      assert (iovs + [v])[1..] == iovs[1..] + [v];
      OffsetAppend(iovs[1..], v);
    }
  }

  // Unmasking each piece in place with a running offset unmasks the payload.
  method UnmaskPieces(bufs: seq<array<byte>>, iovs: seq<Iov>, key: nat)
    requires forall i, j | 0 <= i < j < |bufs| :: bufs[i] != bufs[j]
    requires Fits(Contents(bufs), iovs)
    modifies bufs
    ensures Fits(Contents(bufs), iovs)
    ensures View(Contents(bufs), iovs) == Masked(View(old(Contents(bufs)), iovs), key, 0)
  {
    hide View, Masked, Offset, Contents;
    ghost var was := Contents(bufs);
    NoOffset();
    var goff := 0;
    for i := 0 to |iovs|
      invariant goff == Offset(iovs[..i])
      invariant forall j | 0 <= j < i :: PieceDone(was[j], bufs[j][..], iovs[j], key, Offset(iovs[..j]))
      invariant forall j | i <= j < |bufs| :: bufs[j][..] == was[j]
    {
      var v := iovs[i];
      assert bufs[i][..] == was[i];
      UnmaskInPlace(bufs[i], v.at, v.len, key, goff);
      assert iovs[..i + 1] == iovs[..i] + [v];
      OffsetAppend(iovs[..i], v);
      assert bufs[i][..][v.at..v.at + v.len] == bufs[i][v.at..v.at + v.len];
      goff := goff + v.len;
    }
    assert iovs[..|iovs|] == iovs;
    PiecesUpTo(was, Contents(bufs), iovs, key, |iovs|);
  }

  lemma NoView(before: seq<Bytes>, after: seq<Bytes>, key: nat)
    ensures View(before, []) == View(after, []) == [] && Masked([], key, 0) == [] && Offset([]) == 0
  {
  }

  lemma {:induction false} PiecesUpTo(before: seq<Bytes>, after: seq<Bytes>, iovs: seq<Iov>, key: nat, n: nat)
    requires |before| == |after| && Fits(before, iovs) && n <= |iovs|
    requires forall j | 0 <= j < |iovs| :: PieceDone(before[j], after[j], iovs[j], key, Offset(iovs[..j]))
    ensures Fits(before, iovs[..n]) && Fits(after, iovs[..n])
    ensures View(after, iovs[..n]) == Masked(View(before, iovs[..n]), key, 0)
    ensures |View(before, iovs[..n])| == Offset(iovs[..n])
  {
    hide Masked, View;
    if n == 0 {
      NoView(before, after, key);
    } else {
      var front, v := iovs[..n - 1], iovs[n - 1];
      PiecesUpTo(before, after, iovs, key, n - 1);
      assert iovs[..n] == front + [v];
      OffsetAppend(front, v);
      ViewAppend(before, front, v);
      ViewAppend(after, front, v);
      assert PieceDone(before[n - 1], after[n - 1], v, key, Offset(front));
      MaskAppend(View(before, front), before[n - 1][v.at..v.at + v.len], key, 0);
    }
  }

  // The scattered path and the decoder agree: d joins the segments and holds the
  // header in the first one, and the pieces gathered cover what that header
  // announces.  Unmasked, they are the payload of the frame the decoder finds.
  lemma ScatteredIsDecoded(first: Bytes, d: Bytes, gathered: Bytes)
    requires first <= d && ParseHeader(first).Some? && ParseHeader(first).value.len < LENGTHS
    requires var i := Inline(first); i.total <= |d| && gathered == d[i.headerLen..i.total]
    ensures var i, r := Inline(first), Decode(d);
            && r.Decoded? && r.consumed == i.total && r.frame.fin == i.fin && r.frame.opcode == i.opcode
            && r.frame.payload == (if i.masked then Masked(gathered, i.key, 0) else gathered)
  {
    var h := ParseHeader(first).value;
    assert first[..h.size] <= d;
    HeaderStable(first, d);
    assert Declared(h) == h.size + h.len;
  }

  // A first segment that does not hold the whole header announces nothing: the
  // path then awaits no more segments and gathers an empty payload.
  lemma HeaderCutShort(first: Bytes)
    requires ParseHeader(first).None?
    ensures Inline(first).total == Inline(first).headerLen == Inline(first).payloadLen == 0
  {
  }

  // One byte in the first segment: the frame carries a byte, the path sees none.
  lemma SplitHeaderIsLost()
    ensures var first, d: Bytes := [129], [129, 1, 65];
            && first <= d && Decode(d).Decoded? && Decode(d).frame.payload == [65]
            && Inline(first).payloadLen == 0
  {
    var d: Bytes := [129, 1, 65];
    assert ParseHeader(d) == Some(Header(true, TEXT, false, 0, 1, 2));
    assert d[2..3] == [65];
  }

  // The multi-segment path of echo_inplace_ring over the buffers received, as
  // many as the header in the first one announces: what the pieces hold in the
  // end is the payload of the frame the decoder finds in the joined bytes.
  method EchoScattered(bufs: seq<array<byte>>) returns (info: Info, iovs: seq<Iov>)
    requires bufs != [] && forall i, j | 0 <= i < j < |bufs| :: bufs[i] != bufs[j]
    requires Inline(bufs[0][..]).total <= |Join(Contents(bufs))|
    requires ParseHeader(bufs[0][..]).Some? ==> ParseHeader(bufs[0][..]).value.len < LENGTHS
    modifies bufs
    ensures info == Inline(old(bufs[0][..])) && Fits(Contents(bufs), iovs)
    ensures old(ParseHeader(bufs[0][..]).Some?) ==>
              var r := Decode(Join(old(Contents(bufs))));
              && r.Decoded? && r.consumed == info.total
              && r.frame.fin == info.fin && r.frame.opcode == info.opcode
              && r.frame.payload == View(Contents(bufs), iovs)
    ensures old(ParseHeader(bufs[0][..]).None?) ==> info.payloadLen == 0 && iovs == []
  {
    hide Join, View, Contents, Inline, Decode, Masked, ParseHeader;
    ghost var segs := Contents(bufs);
    ghost var d := Join(segs);
    JoinStarts(segs);
    info := ParseInlineFrame(bufs[0][..]);
    InlineSums(segs[0], d);
    iovs := Gather(segs, seq(|bufs|, i requires 0 <= i < |bufs| => bufs[i].Length), info.headerLen, info.payloadLen);
    if info.masked {
      UnmaskPieces(bufs, iovs, info.key);
    }
    if ParseHeader(segs[0]).Some? {
      ScatteredIsDecoded(segs[0], d, d[info.headerLen..info.total]);
    }
  }

  lemma JoinStarts(segs: seq<Bytes>)
    requires segs != []
    ensures segs[0] <= Join(segs)
  {
    assert Join(segs) == segs[0] + Join(segs[1..]);
  }

  lemma InlineSums(first: Bytes, d: Bytes)
    requires ParseHeader(first).Some? ==> ParseHeader(first).value.len < LENGTHS
    ensures var i := Inline(first); i.headerLen + i.payloadLen == i.total && i.headerLen <= |first|
    ensures ParseHeader(first).None? ==> Inline(first).payloadLen == 0
  {
  }

  // ---- read_frame_ring --------------------------------------------------------------------

  datatype Chunk = Data(bid: nat, bytes: Bytes) | Eof | Failure(code: nat)

  datatype ReadResult =
    | Got(frame: Frame)
    | Reset             // end of stream: ECONNRESET
    | IoError(code: nat)
    | Refused           // a length no string can hold
    | WriteFailed       // an answer could not be written
    | Waiting           // no completion left: still suspended

  function Pong(payload: Bytes): Frame {
    Frame(true, PONG, false, 0, payload)
  }

  function CloseReply(): Frame {
    Frame(true, CLOSE, false, 0, [3, 232])
  }

  function Farewell(f: Frame): seq<Frame> {
    if f.opcode == CLOSE then [CloseReply()] else []
  }

  // The answers as they stand on the wire: a pong carries the ping's payload, a
  // close status 1000 (sections 5.5.1 and 5.5.3).
  lemma AnswerOctets(payload: Bytes)
    requires |payload| < LENGTHS
    ensures |payload| < 126 ==> Encode(Pong(payload), false, 0) == [0x8A, |payload|] + payload
    ensures var r := Decode(Encode(Pong(payload), false, 0));
            r.Decoded? && r.frame == Pong(payload) == Frame(true, 10, false, 0, payload)
    ensures Encode(CloseReply(), false, 0) == [0x88, 2, 1000 / 256, 1000 % 256] && !CloseReply().mask
  {
    assert |payload| < 126 ==> [0x8A] + [|payload|] + [] + payload == [0x8A, |payload|] + payload;
    assert [0x88] + [2] + [] + [3, 232] == [0x88, 2, 1000 / 256, 1000 % 256];
    DecodeOfEncode(Pong(payload), false, 0, []);
    var whole := Encode(Pong(payload), false, 0);
    assert whole + [] == whole;
  }

  // What one read makes of a byte stream, with no chunks in sight: pings to
  // answer, then a frame and the bytes behind it, or not enough bytes.
  datatype Scanned =
    | Found(pings: seq<Bytes>, frame: Frame, rest: Bytes)
    | Short(pings: seq<Bytes>, rest: Bytes)
    | Bad(pings: seq<Bytes>)

  function Behind(ping: Bytes, s: Scanned): Scanned {
    s.(pings := [ping] + s.pings)
  }

  function Scan(s: Bytes): Scanned
    decreases |s|
  {
    match Decode(s)
    case Incomplete => Short([], s)
    case TooLong => Bad([])
    case Decoded(f, n) => if f.opcode == PING then Behind(f.payload, Scan(s[n..])) else Found([], f, s[n..])
  }

  function After(pings: seq<Bytes>, s: Scanned): Scanned {
    s.(pings := pings + s.pings)
  }

  lemma ScanUnfold(s: Bytes)
    ensures Decode(s).Incomplete? ==> Scan(s) == Short([], s)
    ensures Decode(s).TooLong? ==> Scan(s) == Bad([])
    ensures Decode(s).Decoded? ==>
              var f, rest := Decode(s).frame, s[Decode(s).consumed..];
              Scan(s) == if f.opcode == PING then Behind(f.payload, Scan(rest)) else Found([], f, rest)
  {
  }

  lemma AfterNothing(pings: seq<Bytes>, s: Scanned)
    requires s.pings == []
    ensures After(pings, s) == s.(pings := pings)
  {
  }

  lemma AfterNone(s: Scanned)
    ensures After([], s) == s && Pongs([]) == []
  {
    assert [] + s.pings == s.pings;
  }

  lemma PongsAppend(pings: seq<Bytes>, ping: Bytes)
    ensures Pongs(pings + [ping]) == Pongs(pings) + [Pong(ping)]
  {
  }

  lemma AfterBehind(pings: seq<Bytes>, ping: Bytes, s: Scanned)
    ensures After(pings, Behind(ping, s)) == After(pings + [ping], s)
  {
    assert pings + ([ping] + s.pings) == (pings + [ping]) + s.pings;
  }

  // What is decided about the bytes r at hand is decided about the stream r + t.
  lemma ScanFront(whole: Scanned, pings: seq<Bytes>, r: Bytes, t: Bytes)
    requires whole == After(pings, Scan(r + t))
    ensures Decode(r).Incomplete? && t == [] ==> whole == Short(pings, r)
    ensures Decode(r).TooLong? ==> whole == Bad(pings)
    ensures Decode(r).Decoded? ==>
              var f, rest := Decode(r).frame, r[Decode(r).consumed..] + t;
              whole == if f.opcode == PING then After(pings + [f.payload], Scan(rest)) else Found(pings, f, rest)
  {
    ScanUnfold(r + t);
    hide Scan, Decode;
    if Decode(r).Incomplete? {
      if t == [] {
        assert r + t == r;
        AfterNothing(pings, Scan(r + t));
      }
    } else {
      DecodeExtends(r, t);
      if Decode(r).TooLong? {
        AfterNothing(pings, Scan(r + t));
      } else {
        var f, n := Decode(r).frame, Decode(r).consumed;
        assert (r + t)[n..] == r[n..] + t;
        if f.opcode == PING {
          AfterBehind(pings, f.payload, Scan(r[n..] + t));
        } else {
          AfterNothing(pings, Scan(r + t));
        }
      }
    }
  }

  // The bytes of the chunks before the first end or error, and what that is.
  function Stream(chunks: seq<Chunk>): Bytes {
    if chunks == [] || !chunks[0].Data? then [] else chunks[0].bytes + Stream(chunks[1..])
  }

  function Ending(chunks: seq<Chunk>): (r: ReadResult)
    ensures !r.Got? && !r.Refused? && !r.WriteFailed?
  {
    if chunks == [] then Waiting
    else if chunks[0].Eof? then Reset
    else if chunks[0].Failure? then IoError(chunks[0].code)
    else Ending(chunks[1..])
  }

  // The buffers those chunks lie in.
  function Lent(chunks: seq<Chunk>): seq<nat> {
    if chunks == [] || !chunks[0].Data? then [] else [chunks[0].bid] + Lent(chunks[1..])
  }

  // The control frames one read answers with.
  function Answers(s: Scanned): seq<Frame> {
    Pongs(s.pings) + if s.Found? then Farewell(s.frame) else []
  }

  class RingReader {
    const writes: nat -> bool  // whether the k-th answer can be written
    var chunks: seq<Chunk>     // completions to come, in order
    var reasm: Bytes
    var pending: seq<nat>      // buffers copied and not yet given back
    var returned: seq<nat>
    var written: seq<Frame>    // answers sent
    var closed: bool

    constructor (chunks: seq<Chunk>, writes: nat -> bool)
      ensures this.chunks == chunks && this.writes == writes && reasm == [] && written == [] && !closed
      ensures pending == [] && returned == []
    {
      this.chunks, this.writes, reasm, written, closed := chunks, writes, [], [], false;
      pending, returned := [], [];
    }

    // try_decode over the reassembly buffer: a frame found is consumed, and all
    // buffers copied so far go back.
    method TryDecode() returns (r: Result)
      modifies `reasm, `pending, `returned
      ensures r == Decode(old(reasm))
      ensures reasm == if r.Decoded? then old(reasm)[r.consumed..] else old(reasm)
      ensures r.Decoded? ==> |reasm| < |old(reasm)|
      ensures returned + pending == old(returned + pending)
      ensures if r.Decoded? then pending == [] else pending == old(pending)
    {
      r := DecodeFrame(reasm);
      if r.Decoded? {
        reasm := reasm[r.consumed..];
        assert returned + pending + [] == returned + pending;
        returned, pending := returned + pending, [];
      }
    }

    // Awaits the next completion and appends its bytes.
    method NextChunk() returns (stop: Option<ReadResult>)
      modifies `chunks, `reasm, `pending
      ensures stop.Some? ==> Stream(old(chunks)) == [] && stop.value == Ending(old(chunks)) && reasm == old(reasm)
      ensures stop.Some? ==> Lent(old(chunks)) == [] && pending == old(pending)
      ensures stop.None? ==> |chunks| < |old(chunks)| && Ending(chunks) == Ending(old(chunks))
                             && reasm + Stream(chunks) == old(reasm) + Stream(old(chunks))
                             && pending + Lent(chunks) == old(pending) + Lent(old(chunks))
    {
      if chunks == [] {
        return Some(Waiting);
      }
      var chunk := chunks[0];
      chunks := chunks[1..];
      if chunk.Eof? {
        return Some(Reset);
      }
      if chunk.Failure? {
        return Some(IoError(chunk.code));
      }
      Assoc(reasm, chunk.bytes, Stream(chunks));
      Assoc(pending, [chunk.bid], Lent(chunks));
      reasm, pending := reasm + chunk.bytes, pending + [chunk.bid];
      stop := None;
    }

    // write_frame of an answer; it throws when the socket fails.
    method Answer(f: Frame) returns (ok: bool)
      modifies `written
      ensures ok == writes(|old(written)|) && written == if ok then old(written) + [f] else old(written)
    {
      ok := writes(|written|);
      if ok {
        written := written + [f];
      }
    }

    // Answers a control frame; no result yet when it was a ping.
    method Handle(f: Frame) returns (r: Option<ReadResult>)
      modifies `written, `closed
      ensures var answers, k := if f.opcode == PING then [Pong(f.payload)] else Farewell(f), |old(written)|;
              if answers != [] && !writes(k) then
                r == Some(WriteFailed) && written == old(written) && closed == old(closed)
              else
                && r == (if f.opcode == PING then None else Some(Got(f)))
                && written == old(written) + answers && closed == (old(closed) || f.opcode == CLOSE)
    {
      if f.opcode == PING {
        var ok := Answer(Pong(f.payload));
        return if ok then None else Some(WriteFailed);
      }
      if f.opcode == CLOSE {
        var ok := Answer(CloseReply());
        if !ok {
          return Some(WriteFailed);
        }
        closed := true;
      }
      r := Some(Got(f));
    }

    // The result, the answers sent and the bytes left are those of scanning the
    // whole stream at once: how it was cut into chunks does not matter.  The
    // first answer that cannot be written ends the read.
    method ReadFrameRing() returns (r: ReadResult)
      modifies this
      ensures var s, k := Scan(old(reasm) + Stream(old(chunks))), |old(written)|;
              && old(written) <= written <= old(written) + Answers(s)
              && (forall i: nat | k <= i < |written| :: writes(i))
              && (r == WriteFailed ==>
                    && closed == old(closed)
                    && |written| < k + |Answers(s)| && !writes(|written|))
              && (r != WriteFailed ==>
                    && written == old(written) + Answers(s)
                    && r == (match s
                             case Found(_, f, _) => Got(f)
                             case Short(_, _) => Ending(old(chunks))
                             case Bad(_) => Refused)
                    && (s.Found? ==> reasm + Stream(chunks) == s.rest && Ending(chunks) == Ending(old(chunks)))
                    && (s.Short? ==> reasm == s.rest)
                    && closed == (old(closed) || (s.Found? && s.frame.opcode == CLOSE)))
      ensures r.Got? ==> pending == []
      ensures var out := returned + pending + (if r == Ending(old(chunks)) then [] else Lent(chunks));
              out == old(returned + pending + Lent(chunks))
    {
      hide Scan, Decode, Answers, Pongs, Stream, Lent, Ending;
      ghost var whole := Scan(reasm + Stream(chunks));
      ghost var pings: seq<Bytes> := [];
      AfterNone(whole);
      assert written + [] == written;
      while true
        invariant whole == After(pings, Scan(reasm + Stream(chunks)))
        invariant Ending(chunks) == Ending(old(chunks))
        invariant written == old(written) + Pongs(pings) && closed == old(closed)
        invariant forall i: nat | |old(written)| <= i < |written| :: writes(i)
        invariant returned + pending + Lent(chunks) == old(returned + pending + Lent(chunks))
        decreases |chunks|, |reasm|
      {
        ScanFront(whole, pings, reasm, Stream(chunks));
        AnswersFirst(whole, pings);
        Assoc(returned, pending, Lent(chunks));
        var d := TryDecode();
        if d.TooLong? {
          return Refused;
        }
        if d.Decoded? {
          var result := Handle(d.frame);
          PongsAppend(pings, d.frame.payload);
          Assoc(old(written), Pongs(pings), [Pong(d.frame.payload)]);
          Assoc(old(written), Pongs(pings), Farewell(d.frame));
          if result.Some? {
            return result.value;
          }
          pings := pings + [d.frame.payload];
          continue;
        }
        Assoc(returned, pending, Lent(chunks));
        var stop := NextChunk();
        Assoc(returned, pending, Lent(chunks));
        if stop.Some? {
          assert returned + pending + [] == returned + pending;
          return stop.value;
        }
      }
    }

    // Reading until no more frames come delivers the frames of the stream and
    // answers them in order; what stops it is a length no string can hold, the end
    // of the completions, or an answer that cannot be written.
    method ReadAll() returns (frames: seq<Frame>, last: ReadResult)
      modifies this
      ensures var all := Talk(old(reasm) + Stream(old(chunks)));
              && frames <= all.frames && old(written) <= written <= old(written) + all.answers
              && (last == WriteFailed ==> !writes(|written|))
              && (last != WriteFailed ==>
                    && frames == all.frames && written == old(written) + all.answers
                    && last == if all.refused then Refused else Ending(old(chunks)))
      ensures closed == (old(closed) || exists f | f in frames :: f.opcode == 8)
    {
      hide Scan, Answers, Ending;
      frames := [];
      ghost var all := Talk(reasm + Stream(chunks));
      ghost var said: seq<Frame> := [];
      while true
        invariant all == Ahead(frames, said, Talk(reasm + Stream(chunks)))
        invariant written == old(written) + said
        invariant closed == (old(closed) || exists f | f in frames :: f.opcode == 8)
        invariant Ending(chunks) == Ending(old(chunks))
        decreases |reasm + Stream(chunks)|
      {
        ghost var now, k := reasm + Stream(chunks), written;
        ScanShrinks(now);
        last := ReadFrameRing();
        AheadIs(frames, said, now);
        Assoc(old(written), said, Answers(Scan(now)));
        if !last.Got? {
          assert written <= k + Answers(Scan(now)) <= old(written) + all.answers;
          return;
        }
        Assoc(old(written), said, Answers(Scan(now)));
        said := said + Answers(Scan(now));
        frames := frames + [last.frame];
      }
    }
  }

  function Pongs(pings: seq<Bytes>): (r: seq<Frame>)
    ensures |r| == |pings|
  {
    seq(|pings|, i requires 0 <= i < |pings| => Pong(pings[i]))
  }

  // The answers begin with the pongs to the pings already met.
  lemma AnswersFirst(whole: Scanned, pings: seq<Bytes>)
    requires pings <= whole.pings
    ensures Pongs(pings) <= Answers(whole)
    ensures |pings| < |whole.pings| ==> |Pongs(pings)| < |Answers(whole)|
    ensures whole.pings == pings ==> Answers(whole) == Pongs(pings) + if whole.Found? then Farewell(whole.frame) else []
  {
    assert Pongs(pings) == Pongs(whole.pings)[..|pings|];
  }

  lemma {:induction false} ScanShrinks(s: Bytes)
    ensures Scan(s).Found? ==> |Scan(s).rest| < |s|
    decreases |s|
  {
    if Decode(s).Decoded? {
      if Decode(s).frame.opcode == PING {
        ScanShrinks(s[Decode(s).consumed..]);
      }
    }
  }

  // What reading a byte stream to its end comes to: the frames delivered, the
  // answers given, and whether it stops at a length no string can hold.
  datatype Dialogue = Said(frames: seq<Frame>, answers: seq<Frame>, refused: bool)

  function Ahead(frames: seq<Frame>, answers: seq<Frame>, t: Dialogue): Dialogue {
    Said(frames + t.frames, answers + t.answers, t.refused)
  }

  function Talk(s: Bytes): Dialogue
    decreases |s|
  {
    ScanShrinks(s);
    match Scan(s)
    case Found(_, f, rest) => Ahead([f], Answers(Scan(s)), Talk(rest))
    case Short(_, _) => Said([], Answers(Scan(s)), false)
    case Bad(_) => Said([], Answers(Scan(s)), true)
  }

  lemma AheadIs(frames: seq<Frame>, answers: seq<Frame>, s: Bytes)
    ensures var t, a := Ahead(frames, answers, Talk(s)), Answers(Scan(s));
            && t == (match Scan(s)
                     case Found(_, f, rest) => Ahead(frames + [f], answers + a, Talk(rest))
                     case Short(_, _) => Said(frames, answers + a, false)
                     case Bad(_) => Said(frames, answers + a, true))
            && answers + a <= t.answers
  {
    hide Scan, Answers;
    match Scan(s)
    case Found(_, f, rest) =>
      Assoc(frames, [f], Talk(rest).frames);
      Assoc(answers, Answers(Scan(s)), Talk(rest).answers);
    case _ =>
  }

  // ---- a well-formed stream delivers what was encoded ----------------------------------

  predicate Sendable(f: Frame) {
    |f.payload| < LENGTHS && f.key < KEYS && (f.mask || f.key == 0)
  }

  function EncodeAll(fs: seq<Frame>): Bytes {
    if fs == [] then [] else Encode(fs[0], fs[0].mask, fs[0].key) + EncodeAll(fs[1..])
  }

  function NotPings(fs: seq<Frame>): seq<Frame> {
    if fs == [] then [] else (if fs[0].opcode == PING then [] else [fs[0]]) + NotPings(fs[1..])
  }

  // Sections 5.5.1 to 5.5.3: a ping is answered with a pong of the same payload, a
  // close with status 1000, nothing else with anything.
  function Replies(fs: seq<Frame>): seq<Frame> {
    if fs == [] then []
    else
      (if fs[0].opcode == 9 then [Frame(true, 10, false, 0, fs[0].payload)]
       else if fs[0].opcode == 8 then [Frame(true, 8, false, 0, [1000 / 256, 1000 % 256])]
       else [])
      + Replies(fs[1..])
  }

  // Everything but the pings, in order, however the bytes were cut up; the tail
  // of an unfinished frame delivers nothing. Every ping and close is answered.
  lemma {:induction false} FramesOfEncoded(fs: seq<Frame>, tail: Bytes)
    requires forall f | f in fs :: Sendable(f)
    requires Decode(tail) == Incomplete
    ensures Talk(EncodeAll(fs) + tail) == Said(NotPings(fs), Replies(fs), false)
  {
    if fs == [] {
      assert EncodeAll(fs) + tail == tail;
      assert Scan(tail) == Short([], tail);
    } else {
      hide Talk, Decode, Encode, EncodedSize;
      var f, rest := fs[0], EncodeAll(fs[1..]) + tail;
      var s := EncodeAll(fs) + tail;
      Assoc(Encode(f, f.mask, f.key), EncodeAll(fs[1..]), tail);
      assert s == Encode(f, f.mask, f.key) + rest;
      assert Sendable(f);
      DecodeOfEncode(f, f.mask, f.key, rest);
      EncodeSize(f, f.mask, f.key);
      assert s[EncodedSize(|f.payload|, f.mask)..] == rest;
      FramesOfEncoded(fs[1..], tail);
      FrameByFrame(s);
    }
  }

  lemma FrameByFrame(s: Bytes)
    requires Decode(s).Decoded?
    ensures var f, rest := Decode(s).frame, s[Decode(s).consumed..];
            Talk(s) == if f.opcode == PING then Ahead([], [Pong(f.payload)], Talk(rest))
                          else Ahead([f], Farewell(f), Talk(rest))
  {
    hide Decode, Scan, Talk, Answers, Pong;
    var f, rest := Decode(s).frame, s[Decode(s).consumed..];
    ScanUnfold(s);
    TalkIs(s);
    if f.opcode == PING {
      AnswersBehind(f.payload, Scan(rest));
      BehindTalk(f.payload, s, rest);
    } else {
      AnswersFound(f, rest);
    }
  }

  lemma BehindTalk(ping: Bytes, s: Bytes, rest: Bytes)
    requires Scan(s) == Behind(ping, Scan(rest)) && Answers(Scan(s)) == [Pong(ping)] + Answers(Scan(rest))
    ensures Talk(s) == Ahead([], [Pong(ping)], Talk(rest))
  {
    hide Scan, Talk, Answers, Pong;
    TalkIs(s);
    TalkIs(rest);
    var r := Scan(rest);
    if r.Found? {
      Assoc([Pong(ping)], Answers(r), Talk(r.rest).answers);
    }
  }

  lemma AnswersBehind(ping: Bytes, s: Scanned)
    ensures Answers(Behind(ping, s)) == [Pong(ping)] + Answers(s)
  {
    assert Pongs([ping] + s.pings) == [Pong(ping)] + Pongs(s.pings);
  }

  lemma AnswersFound(f: Frame, rest: Bytes)
    ensures Answers(Found([], f, rest)) == Farewell(f)
  {
    assert Pongs([]) == [];
  }

  lemma TalkIs(s: Bytes)
    ensures Talk(s) == match Scan(s)
                          case Found(_, f, rest) => Ahead([f], Answers(Scan(s)), Talk(rest))
                          case Short(_, _) => Said([], Answers(Scan(s)), false)
                          case Bad(_) => Said([], Answers(Scan(s)), true)
  {
  }

  // A read that finds no frame ends as the first completion without data says.
  lemma {:induction false} EndsAtFirst(chunks: seq<Chunk>, k: nat)
    requires k <= |chunks| && forall i | 0 <= i < k :: chunks[i].Data?
    ensures k == |chunks| ==> Ending(chunks) == Waiting
    ensures k < |chunks| && chunks[k].Eof? ==> Ending(chunks) == Reset
    ensures k < |chunks| && chunks[k].Failure? ==> Ending(chunks) == IoError(chunks[k].code)
    decreases k
  {
    if k > 0 {
      EndsAtFirst(chunks[1..], k - 1);
    }
  }

  // End to end: a receiver fed the encoded frames in any chunks at all reads
  // back the frames that are not pings and answers the pings and the closes, all
  // of them unless an answer could not be written.
  method ReceiveAll(ghost fs: seq<Frame>, chunks: seq<Chunk>, writes: nat -> bool)
    returns (frames: seq<Frame>, answers: seq<Frame>, last: ReadResult)
    requires forall f | f in fs :: Sendable(f)
    requires Stream(chunks) == EncodeAll(fs)
    ensures frames <= NotPings(fs) && answers <= Replies(fs)
    ensures last == WriteFailed ==> !writes(|answers|)
    ensures last != WriteFailed ==> frames == NotPings(fs) && answers == Replies(fs) && last == Ending(chunks)
  {
    var reader := new RingReader(chunks, writes);
    frames, last := reader.ReadAll();
    answers := reader.written;
    FramesOfEncoded(fs, []);
    assert EncodeAll(fs) + [] == [] + EncodeAll(fs);
  }
}
