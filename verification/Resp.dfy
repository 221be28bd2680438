module Resp {
  // The Redis protocol as the proxy reads and writes it: the request parser, the
  // request encoder, the boundary scanner that skips parsing, and the recursive
  // scanner for replies.

  import opened Prelude

  const CR: byte := 13
  const LF: byte := 10
  const SPACE: byte := 32
  const DOLLAR: byte := 36
  const STAR: byte := 42
  const PLUS: byte := 43
  const MINUS: byte := 45
  const COLON: byte := 58

  const CRLF: Bytes := [CR, LF]

  // ---- decimal numbers ---------------------------------------------------------

  predicate IsDigit(b: byte) {
    48 <= b <= 57
  }

  function Value(digits: Bytes): nat {
    if digits == [] then 0
    else
      var d: nat := digits[|digits| - 1];
      Value(digits[..|digits| - 1]) * 10 + (if d >= 48 then d - 48 else 0)
  }

  // std::to_string
  function Decimal(n: nat): (s: Bytes)
    ensures s != [] && forall i | 0 <= i < |s| :: IsDigit(s[i])
  {
    if n < 10 then [48 + n] else Decimal(n / 10) + [48 + n % 10]
  }

  // The digits are the octets of '0' to '9', those std::to_string writes.
  lemma DigitsExactly(b: byte)
    ensures IsDigit(b) <==> b as char in "0123456789"
    ensures IsDigit(b) <==> exists v: nat :: v < 10 && Decimal(v) == [b]
  {
    if IsDigit(b) {
      assert Decimal(b - 48) == [b];
    }
  }

  lemma {:induction false} DecimalValue(n: nat)
    ensures Value(Decimal(n)) == n
  {
    var s := Decimal(n);
    if n < 10 {
      assert s[..0] == [];
    } else {
      DecimalValue(n / 10);
      assert s[..|s| - 1] == Decimal(n / 10);
    }
  }

  // Where the run of digits that starts at p ends.
  function DigitsEnd(d: Bytes, p: nat): (q: nat)
    requires p <= |d|
    ensures p <= q <= |d|
    decreases |d| - p
  {
    if p < |d| && IsDigit(d[p]) then DigitsEnd(d, p + 1) else p
  }

  lemma {:induction false} DigitsRun(d: Bytes, p: nat, q: nat)
    requires p <= q <= |d| && (forall i | p <= i < q :: IsDigit(d[i]))
    requires q < |d| ==> !IsDigit(d[q])
    ensures DigitsEnd(d, p) == q
    decreases q - p
  {
    if p < q {
      DigitsRun(d, p + 1, q);
    }
  }

  lemma {:induction false} DigitsAre(d: Bytes, p: nat)
    requires p <= |d|
    ensures forall i | p <= i < DigitsEnd(d, p) :: IsDigit(d[i])
    ensures DigitsEnd(d, p) < |d| ==> !IsDigit(d[DigitsEnd(d, p)])
    decreases |d| - p
  {
    if p < |d| && IsDigit(d[p]) {
      DigitsAre(d, p + 1);
    }
  }

  // ---- a number and the end of its line -----------------------------------------

  datatype Line = Line(value: nat, next: nat)

  predicate EndsLine(d: Bytes, q: nat) {
    q + 1 < |d| && d[q] == CR && d[q + 1] == LF
  }

  function NumberLine(d: Bytes, p: nat): (r: Option<Line>)
    ensures r.Some? ==> p + 2 <= r.value.next <= |d|
  {
    if p > |d| then None
    else
      var q := DigitsEnd(d, p);
      if EndsLine(d, q) then Some(Line(Value(d[p..q]), q + 2)) else None
  }

  // A number line depends on its own bytes only, and none of them can be missing.
  lemma NumberLineStable(d: Bytes, e: Bytes, p: nat)
    requires NumberLine(d, p).Some? && d[..NumberLine(d, p).value.next] <= e
    ensures NumberLine(e, p) == NumberLine(d, p)
  {
    var q := DigitsEnd(d, p);
    DigitsAre(d, p);
    var n := q + 2;
    assert forall i | 0 <= i < n :: d[..n][i] == d[i] && e[i] == d[..n][i];
    DigitsRun(e, p, q);
    assert d[p..q] == e[p..q];
  }

  lemma NumberLineCut(d: Bytes, p: nat, k: nat)
    requires NumberLine(d, p).Some? && k < NumberLine(d, p).value.next
    ensures NumberLine(d[..k], p).None?
  {
    if p <= k {
      var q := DigitsEnd(d, p);
      DigitsAre(d, p);
      DigitsRun(d[..k], p, if k < q then k else q);
    }
  }

  // Any number of digits, none included, which stands for 0.
  predicate Numeral(s: Bytes) {
    forall i | 0 <= i < |s| :: IsDigit(s[i])
  }

  lemma DecimalIsNumeral(n: nat)
    ensures Numeral(Decimal(n)) && Value(Decimal(n)) == n
  {
    DecimalValue(n);
  }

  lemma {:induction false} NumberLineOf(pre: Bytes, s: Bytes, rest: Bytes)
    requires Numeral(s)
    ensures NumberLine(pre + s + CRLF + rest, |pre|) == Some(Line(Value(s), |pre| + |s| + 2))
  {
    hide Value, DigitsEnd;
    var d := pre + s + CRLF + rest;
    DigitsStand(pre, s, rest);
    assert d[|pre|..|pre| + |s|] == s;
  }

  lemma DigitsStand(pre: Bytes, s: Bytes, rest: Bytes)
    requires Numeral(s)
    ensures var d, q := pre + s + CRLF + rest, |pre| + |s|;
            DigitsEnd(d, |pre|) == q && EndsLine(d, q)
  {
    var d := pre + s + CRLF + rest;
    var p, q := |pre|, |pre| + |s|;
    assert d[q] == CR && d[q + 1] == LF;
    forall i | p <= i < q ensures IsDigit(d[i]) {
      assert d[i] == s[i - p];
    }
    DigitsRun(d, p, q);
  }

  // ---- 64-bit numbers --------------------------------------------------------------

  const INT64 := 0x8000_0000_0000_0000

  // An int64_t that keeps the low 64 bits.
  function Wrapped(v: int): int {
    var low := v % (2 * INT64);
    if low < INT64 then low else low - 2 * INT64
  }

  lemma WrapStep(a: nat, digit: nat)
    ensures Wrapped(Wrapped(a) * 10 + digit) == Wrapped(a * 10 + digit)
  {
    var k := if a % (2 * INT64) < INT64 then a / (2 * INT64) else a / (2 * INT64) + 1;
    assert a == Wrapped(a) + k * (2 * INT64);
    ModPeriod(Wrapped(a) * 10 + digit, 10 * k);
  }

  lemma ModPeriod(x: int, k: int)
    ensures (x + k * (2 * INT64)) % (2 * INT64) == x % (2 * INT64)
  {
    var q := x / (2 * INT64);
    assert x + k * (2 * INT64) == (q + k) * (2 * INT64) + x % (2 * INT64);
  }

  lemma FitsIsExact(v: nat)
    ensures Wrapped(v) == v <==> v < INT64
    ensures Wrapped(0) == 0
  {
  }

  // The run of digits at p stands for a number an int64_t can hold.
  predicate RunFits(d: Bytes, p: nat) {
    p <= |d| ==> Value(d[p..DigitsEnd(d, p)]) < INT64
  }

  // The digit loop shared by the parsers, value so far times ten plus the digit
  // in an int64_t: it reads the number exactly when the number fits.
  method ReadNumber(d: Bytes, start: nat) returns (value: int, p: nat)
    requires start <= |d|
    ensures p == DigitsEnd(d, start) && value == Wrapped(Value(d[start..p]))
    ensures value == Value(d[start..p]) <==> RunFits(d, start)
  {
    hide Wrapped;
    FitsIsExact(Value(d[start..DigitsEnd(d, start)]));
    value, p := 0, start;
    while p < |d| && IsDigit(d[p])
      invariant start <= p <= |d| && DigitsEnd(d, p) == DigitsEnd(d, start)
      invariant value == Wrapped(Value(d[start..p]))
      decreases |d| - p
    {
      assert d[start..p + 1][..p - start] == d[start..p];
      WrapStep(Value(d[start..p]), d[p] - 48);
      value := Wrapped(value * 10 + (d[p] - 48));
      p := p + 1;
    }
  }

  // 2^64 reads as nothing at all.
  method ReadsZero() returns (value: int, p: nat)
    ensures value == 0 && p == 20
  {
    var d: Bytes := Decimal(2 * INT64) + CRLF;
    assert [] + Decimal(2 * INT64) + CRLF + [] == d;
    value, p := ReadNumber(d, 0);
    TwentyDigits(d);
  }

  lemma TwentyDigits(d: Bytes)
    requires d == Decimal(2 * INT64) + CRLF
    ensures DigitsEnd(d, 0) == 20 && Value(d[0..20]) == 2 * INT64
  {
    var s := Decimal(2 * INT64);
    SomeTens();
    DecimalLength(2 * INT64, 20);
    DecimalValue(2 * INT64);
    assert forall i | 0 <= i < 20 :: d[i] == s[i];
    assert d[20] == CR;
    DigitsRun(d, 0, 20);
    assert d[0..20] == s;
  }

  lemma {:induction false} DecimalLength(v: nat, n: nat)
    requires n >= 1 && Tens(n - 1) <= v < Tens(n)
    ensures |Decimal(v)| == n
    decreases n
  {
    if n > 1 {
      assert Tens(n - 1) == 10 * Tens(n - 2);
      DecimalLength(v / 10, n - 1);
    }
  }

  function Tens(n: nat): nat {
    if n == 0 then 1 else 10 * Tens(n - 1)
  }

  lemma SomeTens()
    ensures Tens(18) == 1_000_000_000_000_000_000 && Tens(19) == 10 * Tens(18) && Tens(20) == 10 * Tens(19)
  {
    assert Tens(3) == 1000;
    TensAdd(3, 3);
    TensAdd(6, 6);
    TensAdd(6, 12);
  }

  // Eighteen digits always fit.
  lemma EighteenFit(d: Bytes, p: nat)
    requires p <= |d| && DigitsEnd(d, p) <= p + 18
    ensures RunFits(d, p)
  {
    DigitsAre(d, p);
    hide Tens;
    ValueBelow(d[p..DigitsEnd(d, p)]);
    TensMono(DigitsEnd(d, p) - p, 18);
    SomeTens();
  }

  lemma {:induction false} ValueBelow(digits: Bytes)
    requires forall i | 0 <= i < |digits| :: IsDigit(digits[i])
    ensures Value(digits) < Tens(|digits|)
  {
    if digits != [] {
      ValueBelow(digits[..|digits| - 1]);
    }
  }

  lemma {:induction false} TensMono(a: nat, b: nat)
    requires a <= b
    ensures Tens(a) <= Tens(b)
    decreases b
  {
    if a < b {
      TensMono(a, b - 1);
    }
  }

  lemma {:induction false} TensAdd(a: nat, b: nat)
    ensures Tens(a + b) == Tens(a) * Tens(b)
  {
    if a > 0 {
      TensAdd(a - 1, b);
    }
  }

  // A cut run is no larger.
  lemma {:induction false} ValuePrefix(digits: Bytes, k: nat)
    requires k <= |digits|
    ensures Value(digits[..k]) <= Value(digits)
  {
    if k < |digits| {
      var front := digits[..|digits| - 1];
      assert front[..k] == digits[..k];
      ValuePrefix(front, k);
    } else {
      assert digits[..k] == digits;
    }
  }

  lemma RunFitsStable(d: Bytes, e: Bytes, p: nat)
    requires NumberLine(d, p).Some? && d[..NumberLine(d, p).value.next] <= e && RunFits(d, p)
    ensures RunFits(e, p)
  {
    NumberLineStable(d, e, p);
    var q := DigitsEnd(d, p);
    assert forall i | 0 <= i < q + 2 :: d[..q + 2][i] == d[i] && e[i] == d[..q + 2][i];
    DigitsAre(d, p);
    DigitsRun(e, p, q);
    assert d[p..q] == e[p..q];
  }

  lemma RunFitsCut(d: Bytes, p: nat, k: nat)
    requires RunFits(d, p) && k <= |d|
    ensures RunFits(d[..k], p)
  {
    if p <= k {
      var q := DigitsEnd(d, p);
      DigitsAre(d, p);
      var r := if k < q then k else q;
      DigitsRun(d[..k], p, r);
      assert d[..k][p..r] == d[p..q][..r - p];
      ValuePrefix(d[p..q], r - p);
    }
  }

  lemma RunFitsOf(pre: Bytes, s: Bytes, rest: Bytes)
    requires Numeral(s)
    ensures RunFits(pre + s + CRLF + rest, |pre|) <==> Value(s) < INT64
  {
    hide Value, DigitsEnd;
    var d := pre + s + CRLF + rest;
    DigitsStand(pre, s, rest);
    assert d[|pre|..|pre| + |s|] == s;
  }

  // ---- requests --------------------------------------------------------------------

  datatype Arg = Arg(bytes: Bytes, next: nat)

  // $<len>\r\n<bytes>\r\n at position p.
  function Bulk(d: Bytes, p: nat): (r: Option<Arg>)
    ensures r.Some? ==> p < r.value.next <= |d|
  {
    if p >= |d| || d[p] != DOLLAR then None
    else
      match NumberLine(d, p + 1)
      case None => None
      case Some(h) =>
        if h.next + h.value + 2 <= |d| && EndsLine(d, h.next + h.value)
        then Some(Arg(d[h.next..h.next + h.value], h.next + h.value + 2)) else None
  }

  datatype Request = Request(args: seq<Bytes>, consumed: nat)

  function Bulks(d: Bytes, p: nat, count: nat): (r: Option<Request>)
    requires p <= |d|
    ensures r.Some? ==> p <= r.value.consumed <= |d|
    decreases count
  {
    if count == 0 then Some(Request([], p))
    else
      match Bulk(d, p)
      case None => None
      case Some(a) =>
        match Bulks(d, a.next, count - 1)
        case None => None
        case Some(r) => Some(Request([a.bytes] + r.args, r.consumed))
  }

  // The first carriage return at or after p, or the end.
  function FindCR(d: Bytes, p: nat): (q: nat)
    requires p <= |d|
    ensures p <= q <= |d| && (q < |d| ==> d[q] == CR) && forall i | p <= i < q :: d[i] != CR
    decreases |d| - p
  {
    if p == |d| || d[p] == CR then p else FindCR(d, p + 1)
  }

  function WordEnd(s: Bytes, p: nat): (q: nat)
    requires p <= |s|
    ensures p <= q <= |s| && (q < |s| ==> s[q] == SPACE) && forall i | p <= i < q :: s[i] != SPACE
    decreases |s| - p
  {
    if p == |s| || s[p] == SPACE then p else WordEnd(s, p + 1)
  }

  // The words of a line from position p on.
  function Words(s: Bytes, p: nat): seq<Bytes>
    requires p <= |s|
    decreases |s| - p
  {
    if p == |s| then []
    else if s[p] == SPACE then Words(s, p + 1)
    else
      var q := WordEnd(s, p);
      [s[p..q]] + Words(s, q)
  }

  function Parse(d: Bytes): Option<Request> {
    if d == [] then None
    else if d[0] == STAR then
      match NumberLine(d, 1)
      case None => None
      case Some(h) => Bulks(d, h.next, h.value)
    else
      var cr := FindCR(d, 0);
      if EndsLine(d, cr) then Some(Request(Words(d[..cr], 0), cr + 2)) else None
  }

  // ---- what an inline line says ------------------------------------------------------

  function Spaces(n: nat): (b: Bytes)
    ensures |b| == n && forall i | 0 <= i < n :: b[i] == SPACE
  {
    seq(n, _ => SPACE)
  }

  // Words with gaps[0] spaces before the first, gaps[i] before the i-th and the
  // last gap after them all.
  function Spaced(words: seq<Bytes>, gaps: seq<nat>): Bytes
    requires |gaps| == |words| + 1
  {
    Spaces(gaps[0]) + if words == [] then [] else words[0] + Spaced(words[1..], gaps[1..])
  }

  predicate IsWord(w: Bytes) {
    w != [] && SPACE !in w
  }

  // Two words have a space between them.
  predicate IsSpaced(words: seq<Bytes>, gaps: seq<nat>) {
    && |gaps| == |words| + 1 && (forall i | 0 <= i < |words| :: IsWord(words[i]))
    && forall i | 0 < i < |words| :: gaps[i] >= 1
  }

  lemma {:induction false} WordsSkip(s: Bytes, p: nat, n: nat)
    requires p + n <= |s| && forall i | p <= i < p + n :: s[i] == SPACE
    ensures Words(s, p) == Words(s, p + n)
    decreases n
  {
    if n > 0 {
      WordsSkip(s, p + 1, n - 1);
    }
  }

  lemma {:induction false} WordEndsAt(s: Bytes, p: nat, q: nat)
    requires p <= q <= |s| && (forall i | p <= i < q :: s[i] != SPACE) && (q < |s| ==> s[q] == SPACE)
    ensures WordEnd(s, p) == q
    decreases q - p
  {
    if p < q {
      WordEndsAt(s, p + 1, q);
    }
  }

  lemma SpacesThen(s: Bytes, p: nat, n: nat, rest: Bytes)
    requires p <= |s| && s[p..] == Spaces(n) + rest
    ensures p + n <= |s| && s[p + n..] == rest && Words(s, p) == Words(s, p + n)
  {
    assert s[p + n..] == s[p..][n..];
    assert forall i | p <= i < p + n :: s[i] == s[p..][i - p];
    WordsSkip(s, p, n);
  }

  lemma WordThen(s: Bytes, p: nat, w: Bytes, rest: Bytes)
    requires p <= |s| && s[p..] == w + rest && IsWord(w) && (rest != [] ==> rest[0] == SPACE)
    ensures p + |w| <= |s| && s[p + |w|..] == rest && Words(s, p) == [w] + Words(s, p + |w|)
  {
    var q := p + |w|;
    assert s[p..q] == s[p..][..|w|] == w && s[q..] == s[p..][|w|..];
    assert forall i | p <= i < q :: s[i] == w[i - p];
    assert q < |s| ==> s[q] == s[q..][0];
    WordEndsAt(s, p, q);
  }

  lemma {:induction false} WordsOfSpaced(s: Bytes, p: nat, words: seq<Bytes>, gaps: seq<nat>)
    requires p <= |s| && IsSpaced(words, gaps) && s[p..] == Spaced(words, gaps)
    ensures Words(s, p) == words
    decreases |words|
  {
    hide Words, IsSpaced, Spaces;
    SpacedTail(words, gaps);
    var rest := if words == [] then [] else words[0] + Spaced(words[1..], gaps[1..]);
    SpacesThen(s, p, gaps[0], rest);
    var q := p + gaps[0];
    if words == [] {
      NoWords(s);
    } else {
      StartsWithSpace(words[1..], gaps[1..]);
      WordThen(s, q, words[0], Spaced(words[1..], gaps[1..]));
      WordsOfSpaced(s, q + |words[0]|, words[1..], gaps[1..]);
    }
  }

  lemma SpacedTail(words: seq<Bytes>, gaps: seq<nat>)
    requires IsSpaced(words, gaps)
    ensures |gaps| == |words| + 1
    ensures words != [] ==> IsWord(words[0]) && IsSpaced(words[1..], gaps[1..]) && (|words| > 1 ==> gaps[1] >= 1)
  {
  }

  lemma NoWords(s: Bytes)
    ensures Words(s, |s|) == []
  {
  }

  lemma StartsWithSpace(words: seq<Bytes>, gaps: seq<nat>)
    requires |gaps| == |words| + 1 && (words != [] ==> gaps[0] >= 1)
    ensures Spaced(words, gaps) != [] ==> Spaced(words, gaps)[0] == SPACE
  {
  }

  // Every line is made of its words and the gaps around them, ...
  lemma {:induction false} SpacedOfWords(s: Bytes, p: nat) returns (gaps: seq<nat>)
    requires p <= |s|
    ensures IsSpaced(Words(s, p), gaps) && s[p..] == Spaced(Words(s, p), gaps)
    ensures p < |s| && s[p] == SPACE ==> gaps[0] > 0
    decreases |s| - p
  {
    if p == |s| {
      gaps := [0];
    } else if s[p] == SPACE {
      var more := SpacedOfWords(s, p + 1);
      gaps := more[0 := more[0] + 1];
      OneMoreSpace(Words(s, p + 1), more);
      assert s[p..] == [SPACE] + s[p + 1..];
    } else {
      hide IsSpaced, Spaced;
      var q := WordEnd(s, p);
      var more := SpacedOfWords(s, q);
      gaps := [0] + more;
      assert s[p..] == s[p..q] + s[q..];
      OneMoreWord(s[p..q], Words(s, q), more);
    }
  }

  lemma OneMoreSpace(words: seq<Bytes>, gaps: seq<nat>)
    requires IsSpaced(words, gaps)
    ensures var more := gaps[0 := gaps[0] + 1];
            IsSpaced(words, more) && Spaced(words, more) == [SPACE] + Spaced(words, gaps)
  {
    assert gaps[0 := gaps[0] + 1][1..] == gaps[1..];
    assert Spaces(gaps[0] + 1) == [SPACE] + Spaces(gaps[0]);
  }

  lemma OneMoreWord(w: Bytes, words: seq<Bytes>, gaps: seq<nat>)
    requires IsWord(w) && IsSpaced(words, gaps) && (words != [] ==> gaps[0] > 0)
    ensures IsSpaced([w] + words, [0] + gaps) && Spaced([w] + words, [0] + gaps) == w + Spaced(words, gaps)
  {
    var more, spaces := [w] + words, [0] + gaps;
    assert more[1..] == words && spaces[1..] == gaps && Spaces(0) == [];
    assert forall i | 0 < i < |more| :: more[i] == words[i - 1] && spaces[i] == gaps[i - 1];
  }

  lemma {:induction false} FirstCR(d: Bytes, p: nat, q: nat)
    requires p <= q < |d| && d[q] == CR && forall i | p <= i < q :: d[i] != CR
    ensures FindCR(d, p) == q
    decreases q - p
  {
    if p < q {
      FirstCR(d, p + 1, q);
    }
  }

  lemma {:induction false} SpacedHasNoCR(words: seq<Bytes>, gaps: seq<nat>)
    requires |gaps| == |words| + 1 && forall w | w in words :: CR !in w
    ensures CR !in Spaced(words, gaps)
  {
    if words != [] {
      assert words[0] in words;
      SpacedHasNoCR(words[1..], gaps[1..]);
    }
  }

  // ... and parsing such a line, with its line end and whatever follows, gives
  // exactly the words, in order, and the length of the line.
  lemma InlineRoundTrip(words: seq<Bytes>, gaps: seq<nat>, rest: Bytes)
    requires IsSpaced(words, gaps) && forall w | w in words :: CR !in w
    requires Spaced(words, gaps) == [] || Spaced(words, gaps)[0] != STAR
    ensures var line := Spaced(words, gaps);
            Parse(line + CRLF + rest) == Some(Request(words, |line| + 2))
  {
    hide Spaced, Parse;
    SpacedHasNoCR(words, gaps);
    LineParses(words, gaps, rest);
  }

  lemma LineParses(words: seq<Bytes>, gaps: seq<nat>, rest: Bytes)
    requires IsSpaced(words, gaps) && CR !in Spaced(words, gaps)
    requires Spaced(words, gaps) == [] || Spaced(words, gaps)[0] != STAR
    ensures var line := Spaced(words, gaps);
            Parse(line + CRLF + rest) == Some(Request(words, |line| + 2))
  {
    hide Spaced, Words;
    var line := Spaced(words, gaps);
    var d := line + CRLF + rest;
    assert forall i | 0 <= i < |line| :: d[i] == line[i];
    FirstCR(d, 0, |line|);
    assert d[..|line|] == line && line[0..] == line;
    WordsOfSpaced(line, 0, words, gaps);
  }

  // What a caller reads off a request: nothing unless bytes were consumed.
  predicate Reports(req: Request, r: Option<Request>) {
    match r
    case None => req.consumed == 0
    case Some(q) => req == q && req.consumed > 0
  }

  lemma ParseConsumes(d: Bytes)
    ensures Parse(d).Some? ==> 0 < Parse(d).value.consumed <= |d|
  {
  }

  // parse_request
  method ParseRequest(d: Bytes) returns (req: Request)
    ensures ParseFits(d) ==> Reports(req, Parse(d))
    ensures d != [] && d[0] == STAR && NumberLine(d, 1).Some? && Wrapped(NumberLine(d, 1).value.value) <= 0 ==>
              req == Request([], NumberLine(d, 1).value.next)
  {
    ParseConsumes(d);
    if d == [] {
      return Request([], 0);
    }
    if d[0] == STAR {
      req := ParseStar(d);
    } else {
      req := ParseInline(d);
    }
  }

  // A number as the code holds it, and what follows its line.
  datatype Read = Read(value: int, next: nat)

  // Which number lines are there does not depend on the numbers.
  predicate ReadsLine(r: Option<Read>, spec: Option<Line>) {
    match spec
    case None => r == None
    case Some(h) => r == Some(Read(Wrapped(h.value), h.next))
  }

  // The line end after a number.
  method ReadNumberLine(d: Bytes, start: nat) returns (r: Option<Read>)
    requires start <= |d|
    ensures ReadsLine(r, NumberLine(d, start))
  {
    hide Wrapped;
    var value, p := ReadNumber(d, start);
    if p >= |d| || d[p] != CR {
      return None;
    }
    p := p + 1;
    if p >= |d| || d[p] != LF {
      return None;
    }
    r := Some(Read(value, p + 1));
  }

  // ---- the numbers a parse meets ---------------------------------------------------

  predicate BulkFits(d: Bytes, p: nat) {
    p < |d| && d[p] == DOLLAR ==> RunFits(d, p + 1)
  }

  predicate BulksFit(d: Bytes, p: nat, count: nat)
    requires p <= |d|
    decreases count
  {
    count == 0 || (BulkFits(d, p) && (Bulk(d, p).Some? ==> BulksFit(d, Bulk(d, p).value.next, count - 1)))
  }

  // Every count and length the parser reads on its way fits an int64_t; beyond
  // that signed arithmetic in the code is undefined.
  predicate ParseFits(d: Bytes) {
    d != [] && d[0] == STAR ==>
      && RunFits(d, 1)
      && (NumberLine(d, 1).Some? ==>
            BulksFit(d, NumberLine(d, 1).value.next, NumberLine(d, 1).value.value))
  }

  // One argument of the parser's loop.
  method ReadBulk(d: Bytes, start: nat) returns (r: Option<Arg>)
    requires start <= |d|
    ensures BulkFits(d, start) ==> r == Bulk(d, start)
    ensures r.Some? ==> start < r.value.next <= |d|
  {
    hide Wrapped;
    if start >= |d| || d[start] != DOLLAR || start + 1 >= |d| {
      return None;
    }
    var head := ReadNumberLine(d, start + 1);
    if head.None? {
      return None;
    }
    var slen, p := head.value.value, head.value.next;
    LineFits(d, start + 1);
    if slen < 0 { // wrapped: outside the contract
      return None;
    }
    if p + slen + 2 > |d| || d[p + slen] != CR || d[p + slen + 1] != LF {
      return None;
    }
    r := Some(Arg(d[p..p + slen], p + slen + 2));
  }

  lemma LineFits(d: Bytes, p: nat)
    requires NumberLine(d, p).Some?
    ensures RunFits(d, p) <==> Wrapped(NumberLine(d, p).value.value) == NumberLine(d, p).value.value
  {
    FitsIsExact(NumberLine(d, p).value.value);
  }

  // Whenever the numbers fit, the request is the specified one; a count that
  // wraps to zero or below is taken for an empty request.
  method ParseStar(d: Bytes) returns (req: Request)
    requires d != [] && d[0] == STAR
    ensures ParseFits(d) ==> Reports(req, Parse(d))
    ensures NumberLine(d, 1).Some? && Wrapped(NumberLine(d, 1).value.value) <= 0 ==>
              req == Request([], NumberLine(d, 1).value.next)
  {
    hide Bulk, NumberLine, Wrapped, BulkFits;
    var args: seq<Bytes> := [];
    var head := ReadNumberLine(d, 1);
    if head.None? {
      return Request(args, 0);
    }
    LineFits(d, 1);
    var argc, p := head.value.value, head.value.next;
    ghost var fits := ParseFits(d);
    ghost var whole := if fits then Bulks(d, p, argc) else None;
    var i := 0;
    PrefixedNone(whole);
    while i < argc
      invariant 0 <= i && 0 < p <= |d| && (i <= argc || argc <= 0 == i)
      invariant argc <= 0 ==> args == [] && p == head.value.next
      invariant fits ==> i <= argc && BulksFit(d, p, argc - i) && whole == Prefixed(args, Bulks(d, p, argc - i))
    {
      var arg := ReadBulk(d, p);
      if arg.None? {
        return Request(args, 0);
      }
      if fits {
        PrefixedStep(args, arg.value.bytes, Bulks(d, arg.value.next, argc - i - 1));
      }
      args := args + [arg.value.bytes];
      p := arg.value.next;
      i := i + 1;
    }
    assert args + [] == args;
    req := Request(args, p);
  }

  // A count of 2^64 with nothing behind it: the code reads zero and takes the
  // line for a whole request, where as a number it announces arguments.
  method OverflowAccepted() returns (d: Bytes, req: Request)
    ensures d == [STAR] + Decimal(2 * INT64) + CRLF && req == Request([], |d|)
    ensures !ParseFits(d) && Parse(d) == None
  {
    d := [STAR] + Decimal(2 * INT64) + CRLF;
    assert d + [] == d;
    DecimalValue(2 * INT64);
    NumberLineOf([STAR], Decimal(2 * INT64), []);
    hide NumberLine, Decimal;
    LineFits(d, 1);
    NoBulkAtEnd(d, 2 * INT64);
    req := ParseRequest(d);
  }

  lemma NoBulkAtEnd(d: Bytes, count: nat)
    requires count > 0
    ensures Bulks(d, |d|, count) == None
  {
  }

  function Prefixed(args: seq<Bytes>, r: Option<Request>): Option<Request> {
    match r
    case None => None
    case Some(q) => Some(Request(args + q.args, q.consumed))
  }

  lemma PrefixedNone(r: Option<Request>)
    ensures Prefixed([], r) == r
  {
    if r.Some? {
      assert [] + r.value.args == r.value.args;
    }
  }

  lemma PrefixedStep(args: seq<Bytes>, a: Bytes, r: Option<Request>)
    ensures Prefixed(args, Prefixed([a], r)) == Prefixed(args + [a], r)
  {
    if r.Some? {
      Assoc(args, [a], r.value.args);
    }
  }

  method ParseInline(d: Bytes) returns (req: Request)
    requires d != [] && d[0] != STAR
    ensures Reports(req, Parse(d))
  {
    var cr := 0;
    while cr < |d| && d[cr] != CR
      invariant cr <= |d| && FindCR(d, cr) == FindCR(d, 0)
    {
      cr := cr + 1;
    }
    if cr >= |d| || cr + 1 >= |d| || d[cr + 1] != LF {
      return Request([], 0);
    }
    var line := d[..cr];
    var args: seq<Bytes> := [];
    var p := 0;
    while p < cr
      invariant p <= cr && Words(line, 0) == args + Words(line, p)
    {
      while p < cr && d[p] == SPACE
        invariant p <= cr && Words(line, 0) == args + Words(line, p)
      {
        assert line[p] == SPACE;
        p := p + 1;
      }
      if p >= cr {
        break;
      }
      var start := p;
      while p < cr && d[p] != SPACE
        invariant start <= p <= cr && WordEnd(line, p) == WordEnd(line, start)
      {
        assert line[p] == d[p];
        p := p + 1;
      }
      assert p == WordEnd(line, start);
      assert line[start..p] == d[start..p];
      assert Words(line, start) == [line[start..p]] + Words(line, p);
      Assoc(args, [d[start..p]], Words(line, p));
      args := args + [d[start..p]];
    }
    assert Words(line, p) == [] && args + [] == args;
    req := Request(args, cr + 2);
  }

  // ---- writing requests ---------------------------------------------------------------

  // An argument behind its length, in whatever digits.
  function Sized(size: Bytes, a: Bytes): Bytes {
    [DOLLAR] + size + CRLF + a + CRLF
  }

  function EncodeArg(a: Bytes): Bytes {
    Sized(Decimal(|a|), a)
  }

  function EncodeArgs(args: seq<Bytes>): Bytes {
    if args == [] then [] else EncodeArgs(args[..|args| - 1]) + EncodeArg(args[|args| - 1])
  }

  function Encode(args: seq<Bytes>): Bytes {
    [STAR] + Decimal(|args|) + CRLF + EncodeArgs(args)
  }

  // std::to_string, the digits from the low end
  method ToString(n: nat) returns (s: Bytes)
    ensures s == Decimal(n)
  {
    s := [];
    var v := n;
    while v >= 10
      invariant Decimal(v) + s == Decimal(n)
    {
      Assoc(Decimal(v / 10), [48 + v % 10], s);
      s := [48 + v % 10] + s;
      v := v / 10;
    }
    s := [48 + v] + s;
  }

  // encode_request
  method EncodeRequest(args: seq<Bytes>) returns (out: Bytes)
    ensures out == Encode(args)
  {
    var n := ToString(|args|);
    out := [STAR] + n + CRLF;
    for i := 0 to |args|
      invariant out == [STAR] + n + CRLF + EncodeArgs(args[..i])
    {
      var len := ToString(|args[i]|);
      assert args[..i + 1][..i] == args[..i];
      Assoc([STAR] + n + CRLF, EncodeArgs(args[..i]), EncodeArg(args[i]));
      out := out + ([DOLLAR] + len + CRLF + args[i] + CRLF);
    }
    assert args[..|args|] == args;
  }

  // ---- reading back what was written ------------------------------------------------------

  // The lengths of arguments, written in digits.
  predicate Measures(sizes: seq<Bytes>, args: seq<Bytes>) {
    |sizes| == |args| && forall i | 0 <= i < |sizes| :: Numeral(sizes[i]) && Value(sizes[i]) == |args[i]|
  }

  function AllSized(sizes: seq<Bytes>, args: seq<Bytes>): Bytes
    requires |sizes| == |args|
  {
    if args == [] then [] else Sized(sizes[0], args[0]) + AllSized(sizes[1..], args[1..])
  }

  // An argument somewhere in a buffer is read back, and nothing after it.
  lemma BulkOfArg(pre: Bytes, size: Bytes, a: Bytes, rest: Bytes)
    requires Numeral(size) && Value(size) == |a|
    ensures Bulk(pre + Sized(size, a) + rest, |pre|) == Some(Arg(a, |pre| + |Sized(size, a)|))
  {
    hide NumberLine, Numeral;
    var d := pre + Sized(size, a) + rest;
    var front := pre + [DOLLAR] + size + CRLF;
    assert d == (pre + [DOLLAR]) + size + CRLF + (a + CRLF + rest);
    NumberLineOf(pre + [DOLLAR], size, a + CRLF + rest);
    BulkBody(front, a, rest);
    assert d == front + a + CRLF + rest;
    assert d[|pre|] == DOLLAR;
  }

  lemma BulkBody(front: Bytes, a: Bytes, rest: Bytes)
    ensures var d, q := front + a + CRLF + rest, |front|;
            d[q..q + |a|] == a && EndsLine(d, q + |a|)
  {
  }

  // What the encoder writes is such a sequence, with the digits std::to_string
  // gives.
  function Sizes(args: seq<Bytes>): (sizes: seq<Bytes>)
    ensures Measures(sizes, args)
  {
    var sizes := seq(|args|, i requires 0 <= i < |args| => Decimal(|args[i]|));
    assert forall i | 0 <= i < |args| :: Value(sizes[i]) == |args[i]| by {
      forall i | 0 <= i < |args| ensures Value(Decimal(|args[i]|)) == |args[i]| {
        DecimalValue(|args[i]|);
      }
    }
    sizes
  }

  lemma {:induction false} EncodedIsSized(args: seq<Bytes>)
    ensures EncodeArgs(args) == AllSized(Sizes(args), args)
  {
    hide Sized;
    if args != [] {
      var n := |args| - 1;
      EncodedIsSized(args[..n]);
      assert Sizes(args)[..n] == Sizes(args[..n]);
      AllSizedLast(Sizes(args), args);
    }
  }

  lemma {:induction false} AllSizedLast(sizes: seq<Bytes>, args: seq<Bytes>)
    requires |sizes| == |args| > 0
    ensures var n := |args| - 1;
            AllSized(sizes, args) == AllSized(sizes[..n], args[..n]) + Sized(sizes[n], args[n])
  {
    hide Sized;
    var n := |args| - 1;
    if n > 0 {
      AllSizedLast(sizes[1..], args[1..]);
      assert sizes[1..][..n - 1] == sizes[..n][1..] && args[1..][..n - 1] == args[..n][1..];
      Assoc(Sized(sizes[0], args[0]), AllSized(sizes[1..][..n - 1], args[1..][..n - 1]), Sized(sizes[n], args[n]));
    }
  }

  // The bytes x stand at position p.
  predicate At(d: Bytes, p: nat, x: Bytes) {
    p + |x| <= |d| && d[p..p + |x|] == x
  }

  lemma AtSplit(d: Bytes, p: nat, x: Bytes, y: Bytes)
    requires At(d, p, x + y)
    ensures At(d, p, x) && At(d, p + |x|, y) && p + |x| <= |d|
  {
    var z := d[p..p + |x + y|];
    assert z[..|x|] == d[p..p + |x|] && z[|x|..] == d[p + |x|..p + |x| + |y|];
  }

  lemma AtDrop(d: Bytes, p: nat, x: Bytes)
    requires At(d, p, x)
    ensures d[p..] == x + d[p + |x|..]
  {
  }

  lemma AtMiddle(pre: Bytes, x: Bytes, rest: Bytes)
    ensures At(pre + x + rest, |pre|, x)
  {
  }

  lemma BulkAt(d: Bytes, p: nat, size: Bytes, a: Bytes)
    requires At(d, p, Sized(size, a)) && Numeral(size) && Value(size) == |a|
    ensures Bulk(d, p) == Some(Arg(a, p + |Sized(size, a)|))
  {
    hide Bulk, Sized, Numeral;
    var q := p + |Sized(size, a)|;
    BulkOfArg(d[..p], size, a, d[q..]);
    assert d[..p] + Sized(size, a) + d[q..] == d;
  }

  lemma BulksNone(d: Bytes, p: nat)
    requires p <= |d|
    ensures Bulks(d, p, 0) == Some(Request([], p)) && AllSized([], []) == []
  {
  }

  lemma BulksCons(d: Bytes, p: nat, a: Arg, more: seq<Bytes>, q: nat)
    requires p <= |d| && a.next <= |d| && Bulk(d, p) == Some(a)
    requires Bulks(d, a.next, |more|) == Some(Request(more, q))
    ensures Bulks(d, p, |more| + 1) == Some(Request([a.bytes] + more, q))
  {
    hide Bulk;
  }

  lemma MeasuresRest(sizes: seq<Bytes>, args: seq<Bytes>)
    requires Measures(sizes, args)
    ensures |sizes| == |args|
    ensures args != [] ==>
              && Numeral(sizes[0]) && Value(sizes[0]) == |args[0]| && Measures(sizes[1..], args[1..])
              && AllSized(sizes, args) == Sized(sizes[0], args[0]) + AllSized(sizes[1..], args[1..])
  {
  }

  lemma {:induction false} BulksAt(d: Bytes, p: nat, sizes: seq<Bytes>, args: seq<Bytes>)
    requires Measures(sizes, args) && p <= |d| && At(d, p, AllSized(sizes, args))
    ensures Bulks(d, p, |args|) == Some(Request(args, p + |AllSized(sizes, args)|))
    decreases |args|
  {
    hide Bulks, Sized, AllSized, At, Numeral, Measures;
    MeasuresRest(sizes, args);
    if args == [] {
      BulksNone(d, p);
    } else {
      var a, more, rest := args[0], args[1..], AllSized(sizes[1..], args[1..]);
      var first := Sized(sizes[0], a);
      AtSplit(d, p, first, rest);
      BulksAt(d, p + |first|, sizes[1..], more);
      BulkAt(d, p, sizes[0], a);
      BulksCons(d, p, Arg(a, p + |first|), more, p + |first + rest|);
      assert args == [a] + more;
    }
  }

  // ---- what a request is ---------------------------------------------------------------------

  // A counted request on the wire: a count, then arguments, each behind its length.
  function Counted(count: Bytes, sizes: seq<Bytes>, args: seq<Bytes>): Bytes
    requires |sizes| == |args|
  {
    [STAR] + count + CRLF + AllSized(sizes, args)
  }

  predicate IsCounted(count: Bytes, sizes: seq<Bytes>, args: seq<Bytes>) {
    Numeral(count) && Value(count) == |args| && |sizes| == |args| && Measures(sizes, args)
  }

  lemma CountedParses(count: Bytes, sizes: seq<Bytes>, args: seq<Bytes>, rest: Bytes)
    requires IsCounted(count, sizes, args)
    ensures Parse(Counted(count, sizes, args) + rest) == Some(Request(args, |Counted(count, sizes, args)|))
  {
    hide Bulk, Bulks, NumberLine, AllSized, At, Numeral;
    var body := AllSized(sizes, args);
    var head := [STAR] + count + CRLF;
    var d := head + body + rest;
    assert d == [STAR] + count + CRLF + (body + rest);
    NumberLineOf([STAR], count, body + rest);
    AtMiddle(head, body, rest);
    BulksAt(d, |head|, sizes, args);
    assert d == Counted(count, sizes, args) + rest && d[0] == STAR;
  }

  // Parsing an encoded request, whatever follows it, gives back the arguments
  // and the exact length.
  lemma ParseOfEncode(args: seq<Bytes>, rest: Bytes)
    ensures Parse(Encode(args) + rest) == Some(Request(args, |Encode(args)|))
  {
    hide Parse;
    DecimalValue(|args|);
    EncodedIsSized(args);
    CountedParses(Decimal(|args|), Sizes(args), args, rest);
  }

  // Digits and a line end stand where a number line is read, ...
  lemma LineAt(d: Bytes, p: nat) returns (s: Bytes)
    requires NumberLine(d, p).Some?
    ensures Numeral(s) && Value(s) == NumberLine(d, p).value.value
    ensures NumberLine(d, p).value.next == p + |s| + 2 && At(d, p, s + CRLF)
  {
    var q := DigitsEnd(d, p);
    DigitsAre(d, p);
    s := d[p..q];
  }

  // ... a length and its bytes where an argument is, ...
  lemma SizedAt(d: Bytes, p: nat) returns (size: Bytes)
    requires Bulk(d, p).Some?
    ensures var a := Bulk(d, p).value;
            && Numeral(size) && Value(size) == |a.bytes|
            && a.next == p + |Sized(size, a.bytes)| && At(d, p, Sized(size, a.bytes))
  {
    hide NumberLine, Numeral;
    size := LineAt(d, p + 1);
    var h := NumberLine(d, p + 1).value;
    var a := Bulk(d, p).value;
    assert d[h.next..a.next] == a.bytes + CRLF;
    SizedStands(d, p, size, a.bytes);
  }

  lemma SizedStands(d: Bytes, p: nat, size: Bytes, a: Bytes)
    requires p < |d| && d[p] == DOLLAR && At(d, p + 1, size + CRLF) && At(d, p + 1 + |size| + 2, a + CRLF)
    ensures At(d, p, Sized(size, a))
  {
    var h, next := p + 1 + |size| + 2, p + |Sized(size, a)|;
    assert d[p..next] == d[p..p + 1] + d[p + 1..h] + d[h..next];
    assert Sized(size, a) == [DOLLAR] + (size + CRLF) + (a + CRLF);
  }

  lemma {:induction false} AllSizedAt(d: Bytes, p: nat, count: nat) returns (sizes: seq<Bytes>)
    requires p <= |d| && Bulks(d, p, count).Some?
    ensures var r := Bulks(d, p, count).value;
            && Measures(sizes, r.args) && |r.args| == count
            && r.consumed == p + |AllSized(sizes, r.args)| && At(d, p, AllSized(sizes, r.args))
    decreases count
  {
    hide Bulk, Numeral, Sized;
    if count == 0 {
      sizes := [];
    } else {
      var a := Bulk(d, p).value;
      var size := SizedAt(d, p);
      var more := AllSizedAt(d, a.next, count - 1);
      sizes := [size] + more;
      assert sizes[1..] == more;
      var r := Bulks(d, p, count).value;
      assert r.args[1..] == Bulks(d, a.next, count - 1).value.args;
      assert d[p..r.consumed] == d[p..a.next] + d[a.next..r.consumed];
    }
  }

  // A request stands at the front of a buffer: a counted one, or a line.
  predicate Holds(d: Bytes, req: Request, wire: Bytes) {
    req.consumed == |wire| && wire <= d
  }

  predicate HoldsCounted(d: Bytes, req: Request, count: Bytes, sizes: seq<Bytes>) {
    IsCounted(count, sizes, req.args) && Holds(d, req, Counted(count, sizes, req.args))
  }

  predicate HoldsLine(d: Bytes, req: Request, gaps: seq<nat>) {
    && IsSpaced(req.args, gaps) && CR !in Spaced(req.args, gaps)
    && Holds(d, req, Spaced(req.args, gaps) + CRLF)
  }

  lemma CountedExactly(d: Bytes, req: Request)
    requires d != [] && d[0] == STAR
    ensures Parse(d) == Some(req) <==> exists count, sizes :: HoldsCounted(d, req, count, sizes)
  {
    hide Bulks, NumberLine, Numeral, Measures, AllSized;
    if Parse(d) == Some(req) {
      var h := NumberLine(d, 1).value;
      var count := LineAt(d, 1);
      var sizes := AllSizedAt(d, h.next, h.value);
      assert |sizes| == |req.args| by {
        MeasuresRest(sizes, req.args);
      }
      assert d[..req.consumed] == d[..1] + d[1..h.next] + d[h.next..req.consumed];
      assert Counted(count, sizes, req.args) == [STAR] + (count + CRLF) + AllSized(sizes, req.args);
      assert HoldsCounted(d, req, count, sizes);
    }
    if count, sizes :| HoldsCounted(d, req, count, sizes) {
      var wire := Counted(count, sizes, req.args);
      CountedParses(count, sizes, req.args, d[|wire|..]);
      assert d == wire + d[|wire|..];
    }
  }

  lemma LineExactly(d: Bytes, req: Request)
    requires d != [] && d[0] != STAR
    ensures Parse(d) == Some(req) <==> exists gaps :: HoldsLine(d, req, gaps)
  {
    hide Words, Spaced;
    if Parse(d) == Some(req) {
      var cr := FindCR(d, 0);
      var gaps := SpacedOfWords(d[..cr], 0);
      assert d[..cr][0..] == d[..cr];
      assert d[..cr + 2] == d[..cr] + CRLF;
      assert HoldsLine(d, req, gaps);
    }
    if gaps :| HoldsLine(d, req, gaps) {
      var line := Spaced(req.args, gaps);
      LineParses(req.args, gaps, d[|line| + 2..]);
      assert d == line + CRLF + d[|line| + 2..];
      assert line != [] ==> line[0] == d[0];
    }
  }

  // The parser takes exactly the requests: the arguments and the length it
  // reports are those of the counted request or the line at the front.
  lemma ParseExactly(d: Bytes, req: Request)
    ensures Parse(d) == Some(req) <==>
              && d != []
              && if d[0] == STAR then exists count, sizes :: HoldsCounted(d, req, count, sizes)
                 else exists gaps :: HoldsLine(d, req, gaps)
  {
    hide Parse;
    if d == [] {
      NothingParsed();
    } else if d[0] == STAR {
      CountedExactly(d, req);
    } else {
      LineExactly(d, req);
    }
  }

  lemma NothingParsed()
    ensures Parse([]).None?
  {
  }

  // ---- the boundary scanner ----------------------------------------------------------------

  // $<len>\r\n and len + 2 bytes, whatever the last two are.
  function Skip(d: Bytes, p: nat): (r: Option<nat>)
    ensures r.Some? ==> p < r.value <= |d|
  {
    if p >= |d| || d[p] != DOLLAR then None
    else
      match NumberLine(d, p + 1)
      case None => None
      case Some(h) => if h.next + h.value + 2 <= |d| then Some(h.next + h.value + 2) else None
  }

  function Skips(d: Bytes, p: nat, count: nat): nat
    decreases count
  {
    if count == 0 then p
    else
      match Skip(d, p)
      case None => 0
      case Some(q) => Skips(d, q, count - 1)
  }

  function Boundary(d: Bytes): nat {
    if |d| < 4 then 0
    else if d[0] != STAR then
      var cr := FindCR(d, 0);
      if EndsLine(d, cr) then cr + 2 else 0
    else
      match NumberLine(d, 1)
      case None => 0
      case Some(h) => Skips(d, h.next, h.value)
  }

  predicate SkipsFit(d: Bytes, p: nat, count: nat)
    decreases count
  {
    count == 0 || (BulkFits(d, p) && (Skip(d, p).Some? ==> SkipsFit(d, Skip(d, p).value, count - 1)))
  }

  // Every count and length the scanner reads fits an int64_t.
  predicate BoundaryFits(d: Bytes) {
    |d| >= 4 && d[0] == STAR ==>
      && RunFits(d, 1)
      && (NumberLine(d, 1).Some? ==>
            SkipsFit(d, NumberLine(d, 1).value.next, NumberLine(d, 1).value.value))
  }

  // detect_request_boundary
  method DetectRequestBoundary(d: Bytes) returns (n: nat)
    ensures BoundaryFits(d) ==> n == Boundary(d)
  {
    if |d| < 4 {
      return 0;
    }
    if d[0] != STAR {
      var cr := 0;
      while cr < |d| && d[cr] != CR
        invariant cr <= |d| && FindCR(d, cr) == FindCR(d, 0)
      {
        cr := cr + 1;
      }
      if cr >= |d| || cr + 1 >= |d| || d[cr + 1] != LF {
        return 0;
      }
      return cr + 2;
    }
    n := CountBoundary(d);
  }

  // The counted form: skip every argument without looking inside.
  method CountBoundary(d: Bytes) returns (n: nat)
    requires |d| >= 4 && d[0] == STAR
    ensures BoundaryFits(d) ==> n == Boundary(d)
  {
    hide NumberLine, Skip, Wrapped, BulkFits;
    var head := ReadNumberLine(d, 1);
    if head.None? {
      return 0;
    }
    LineFits(d, 1);
    var argc: int, p: nat := head.value.value, head.value.next;
    ghost var fits := BoundaryFits(d);
    var i := 0;
    while i < argc
      invariant 0 <= i && p <= |d|
      invariant fits ==> i <= argc && SkipsFit(d, p, argc - i) && Boundary(d) == Skips(d, p, argc - i)
    {
      var next := SkipBulk(d, p);
      if next.None? {
        return 0;
      }
      p := next.value;
      i := i + 1;
    }
    n := p;
  }

  method SkipBulk(d: Bytes, start: nat) returns (r: Option<nat>)
    requires start <= |d|
    ensures BulkFits(d, start) ==> r == Skip(d, start)
    ensures r.Some? ==> start < r.value <= |d|
  {
    hide Wrapped;
    if start >= |d| || d[start] != DOLLAR {
      return None;
    }
    var head := ReadNumberLine(d, start + 1);
    if head.None? {
      return None;
    }
    var slen, p := head.value.value, head.value.next;
    LineFits(d, start + 1);
    if slen < 0 || p + slen + 2 > |d| { // below zero: wrapped, outside the contract
      return None;
    }
    var next: nat := p + slen + 2;
    r := Some(next);
  }

  lemma {:induction false} SkipsFollowBulks(d: Bytes, p: nat, count: nat)
    requires p <= |d| && Bulks(d, p, count).Some?
    ensures Skips(d, p, count) == Bulks(d, p, count).value.consumed
    ensures BulksFit(d, p, count) ==> SkipsFit(d, p, count)
    decreases count
  {
    hide Bulk, Skip, BulkFits;
    if count > 0 {
      SkipOfBulk(d, p);
      SkipsFollowBulks(d, Bulk(d, p).value.next, count - 1);
    }
  }

  lemma SkipOfBulk(d: Bytes, p: nat)
    requires Bulk(d, p).Some?
    ensures Skip(d, p) == Some(Bulk(d, p).value.next)
  {
    hide NumberLine;
  }

  // Wherever the parser accepts a buffer of at least four bytes, the scanner
  // finds the same boundary.
  lemma BoundaryAgrees(d: Bytes)
    requires |d| >= 4 && Parse(d).Some?
    ensures Boundary(d) == Parse(d).value.consumed
    ensures ParseFits(d) ==> BoundaryFits(d)
  {
    if d[0] == STAR {
      var h := NumberLine(d, 1).value;
      SkipsFollowBulks(d, h.next, h.value);
    }
  }

  // Every argument the scanner skips is followed by a line end, which it does not
  // look at.
  predicate ArgsEnd(d: Bytes, p: nat, count: nat)
    decreases count
  {
    count > 0 && Skip(d, p).Some? ==>
      var q := Skip(d, p).value;
      q >= 2 && EndsLine(d, q - 2) && ArgsEnd(d, q, count - 1)
  }

  lemma {:induction false} BulksAreSkips(d: Bytes, p: nat, count: nat)
    requires 0 < p <= |d|
    ensures Bulks(d, p, count).Some? <==> Skips(d, p, count) > 0 && ArgsEnd(d, p, count)
    decreases count
  {
    hide NumberLine;
    if count > 0 {
      match Skip(d, p)
      case None => assert Bulk(d, p).None?;
      case Some(q) =>
        assert Bulk(d, p).Some? <==> EndsLine(d, q - 2);
        if Bulk(d, p).Some? {
          SkipOfBulk(d, p);
          BulksAreSkips(d, q, count - 1);
        }
    }
  }

  // The scanner finds a boundary where the parser finds no request exactly where
  // some counted argument is not followed by a line end.
  lemma BoundaryExactly(d: Bytes)
    requires |d| >= 4
    ensures Parse(d).Some? <==>
              Boundary(d) > 0
              && (d[0] == STAR && NumberLine(d, 1).Some? ==>
                    ArgsEnd(d, NumberLine(d, 1).value.next, NumberLine(d, 1).value.value))
  {
    hide Bulks, Skips, ArgsEnd;
    if d[0] == STAR && NumberLine(d, 1).Some? {
      var h := NumberLine(d, 1).value;
      BulksAreSkips(d, h.next, h.value);
    }
  }

  // ---- stability of the parser ---------------------------------------------------------------

  lemma BulkStable(d: Bytes, e: Bytes, p: nat)
    requires Bulk(d, p).Some? && d[..Bulk(d, p).value.next] <= e
    ensures Bulk(e, p) == Bulk(d, p)
  {
    var h, n := NumberLine(d, p + 1).value, Bulk(d, p).value.next;
    assert forall i | 0 <= i < n :: d[..n][i] == d[i] && e[i] == d[..n][i];
    assert d[..h.next] <= e;
    NumberLineStable(d, e, p + 1);
    assert d[h.next..n - 2] == e[h.next..n - 2];
  }

  lemma BulkCut(d: Bytes, p: nat, k: nat)
    requires Bulk(d, p).Some? && k < Bulk(d, p).value.next
    ensures Bulk(d[..k], p).None?
  {
    var h := NumberLine(d, p + 1).value;
    if k < h.next {
      NumberLineCut(d, p + 1, k);
    } else {
      NumberLineStable(d, d[..k], p + 1);
    }
  }

  lemma {:induction false} BulksStable(d: Bytes, e: Bytes, p: nat, count: nat, k: nat)
    requires p <= |d| && Bulks(d, p, count).Some? && d[..Bulks(d, p, count).value.consumed] <= e
    requires p <= k < Bulks(d, p, count).value.consumed
    ensures Bulks(e, p, count) == Bulks(d, p, count)
    ensures Bulks(d[..k], p, count).None?
    decreases count
  {
    hide Bulk;
    var a, n := Bulk(d, p).value, Bulks(d, p, count).value.consumed;
    assert d[..a.next] == d[..n][..a.next];
    BulkStable(d, e, p);
    if k < a.next {
      BulkCut(d, p, k);
      if a.next < n {
        BulksStable(d, e, a.next, count - 1, a.next);
      }
    } else {
      assert d[..a.next] <= d[..k];
      BulkStable(d, d[..k], p);
      BulksStable(d, e, a.next, count - 1, k);
    }
  }

  lemma {:induction false} FindCRStable(d: Bytes, e: Bytes, p: nat, k: nat)
    requires p <= |d| && FindCR(d, p) < |d| && d[..FindCR(d, p) + 1] <= e
    requires p <= k <= |d|
    ensures FindCR(e, p) == FindCR(d, p)
    ensures FindCR(d[..k], p) == if k <= FindCR(d, p) then k else FindCR(d, p)
    decreases |d| - p
  {
    var q := FindCR(d, p);
    assert forall i | 0 <= i <= q :: d[..q + 1][i] == d[i] && e[i] == d[..q + 1][i];
    if p < q {
      if p < k {
        FindCRStable(d, e, p + 1, k);
      } else {
        FindCRStable(d, e, p + 1, p + 1);
      }
    }
  }

  lemma InlineStable(d: Bytes, e: Bytes, k: nat)
    requires Parse(d).Some? && d[0] != STAR && d[..Parse(d).value.consumed] <= e && k < Parse(d).value.consumed
    ensures Parse(e) == Parse(d)
    ensures Parse(d[..k]).None?
  {
    var cr := FindCR(d, 0);
    var n := cr + 2;
    assert forall i | 0 <= i < n :: d[..n][i] == d[i] && e[i] == d[..n][i];
    assert d[..cr + 1] == d[..n][..cr + 1];
    FindCRStable(d, e, 0, k);
    assert d[..cr] == e[..cr];
  }

  // A request, once accepted, is the same whatever bytes follow it, and no
  // shorter piece of it is accepted.
  lemma ParseStable(d: Bytes, e: Bytes, k: nat)
    requires Parse(d).Some? && d[..Parse(d).value.consumed] <= e && k < Parse(d).value.consumed
    ensures Parse(e) == Parse(d)
    ensures Parse(d[..k]).None?
  {
    var n := Parse(d).value.consumed;
    assert d[..n][0] == d[0] == e[0];
    if d[0] == STAR {
      var h := NumberLine(d, 1).value;
      assert d[..h.next] == d[..n][..h.next];
      NumberLineStable(d, e, 1);
      if k < h.next {
        NumberLineCut(d, 1, k);
        if h.next < n {
          BulksStable(d, e, h.next, h.value, h.next);
        }
      } else {
        assert d[..h.next] <= d[..k];
        NumberLineStable(d, d[..k], 1);
        BulksStable(d, e, h.next, h.value, k);
      }
    } else {
      InlineStable(d, e, k);
    }
  }

  // ---- and of what fits ------------------------------------------------------------------------

  lemma BulkFitsStable(d: Bytes, e: Bytes, p: nat)
    requires Bulk(d, p).Some? && d[..Bulk(d, p).value.next] <= e && BulkFits(d, p)
    ensures BulkFits(e, p)
  {
    var h, n := NumberLine(d, p + 1).value, Bulk(d, p).value.next;
    assert d[..h.next] == d[..n][..h.next];
    RunFitsStable(d, e, p + 1);
  }

  lemma BulkFitsCut(d: Bytes, p: nat, k: nat)
    requires BulkFits(d, p) && k <= |d|
    ensures BulkFits(d[..k], p)
  {
    if p < k && d[p] == DOLLAR {
      RunFitsCut(d, p + 1, k);
    }
  }

  lemma {:induction false} BulksFitStable(d: Bytes, e: Bytes, p: nat, count: nat, k: nat)
    requires p <= |d| && Bulks(d, p, count).Some? && d[..Bulks(d, p, count).value.consumed] <= e
    requires p <= k < Bulks(d, p, count).value.consumed && BulksFit(d, p, count)
    ensures BulksFit(e, p, count) && BulksFit(d[..k], p, count)
    decreases count
  {
    hide Bulk, BulkFits;
    var a, n := Bulk(d, p).value, Bulks(d, p, count).value.consumed;
    assert d[..a.next] == d[..n][..a.next];
    BulkStable(d, e, p);
    BulkFitsStable(d, e, p);
    BulkFitsCut(d, p, k);
    if k < a.next {
      BulkCut(d, p, k);
      if a.next < n {
        BulksFitStable(d, e, a.next, count - 1, a.next);
      } else {
        NoMore(d, e, a.next, count - 1);
      }
    } else {
      assert d[..a.next] <= d[..k];
      BulkStable(d, d[..k], p);
      BulksFitStable(d, e, a.next, count - 1, k);
    }
  }

  // Arguments take bytes: a parse that consumed none had none to read.
  lemma NoMore(d: Bytes, e: Bytes, p: nat, count: nat)
    requires p <= |d| && p <= |e| && Bulks(d, p, count).Some? && Bulks(d, p, count).value.consumed == p
    ensures count == 0 && BulksFit(e, p, count)
  {
    hide Bulk;
  }

  // With fitting numbers, what ParseStable says holds of the code's own answers.
  lemma ParseFitsStable(d: Bytes, e: Bytes, k: nat)
    requires Parse(d).Some? && d[..Parse(d).value.consumed] <= e && k < Parse(d).value.consumed && ParseFits(d)
    ensures ParseFits(e) && ParseFits(d[..k])
  {
    hide NumberLine, RunFits, Bulks, BulksFit;
    var n := Parse(d).value.consumed;
    assert d[..n][0] == d[0] == e[0];
    if d[0] == STAR {
      var h := NumberLine(d, 1).value;
      assert d[..h.next] == d[..n][..h.next];
      NumberLineStable(d, e, 1);
      RunFitsStable(d, e, 1);
      RunFitsCut(d, 1, k);
      if k < h.next {
        NumberLineCut(d, 1, k);
        if h.next < n {
          BulksFitStable(d, e, h.next, h.value, h.next);
        } else {
          NoMore(d, e, h.next, h.value);
        }
      } else {
        assert d[..h.next] <= d[..k];
        NumberLineStable(d, d[..k], 1);
        BulksFitStable(d, e, h.next, h.value, k);
      }
    }
  }

  // Numbers the encoder writes fit, for requests of fewer than 2^63 arguments
  // of fewer than 2^63 bytes each.
  predicate Encodable(args: seq<Bytes>) {
    |args| < INT64 && forall a | a in args :: |a| < INT64
  }

  lemma BulkFitsAt(d: Bytes, p: nat, size: Bytes, a: Bytes)
    requires At(d, p, Sized(size, a)) && Numeral(size) && Value(size) < INT64
    ensures BulkFits(d, p)
  {
    hide RunFits, Numeral;
    var pre, rest := d[..p] + [DOLLAR], a + CRLF + d[p + |Sized(size, a)|..];
    RunFitsOf(pre, size, rest);
    assert Sized(size, a) == [DOLLAR] + size + CRLF + (a + CRLF);
    assert pre + size + CRLF + rest == d[..p] + Sized(size, a) + d[p + |Sized(size, a)|..];
    assert d[..p] + Sized(size, a) + d[p + |Sized(size, a)|..] == d;
  }

  lemma {:induction false} BulksFitAt(d: Bytes, p: nat, sizes: seq<Bytes>, args: seq<Bytes>)
    requires Measures(sizes, args) && p <= |d| && At(d, p, AllSized(sizes, args))
    requires forall a | a in args :: |a| < INT64
    ensures BulksFit(d, p, |args|)
    decreases |args|
  {
    hide Sized, AllSized, At, BulkFits, Bulk, Numeral, Measures;
    MeasuresRest(sizes, args);
    if args != [] {
      var a := args[0];
      var first := Sized(sizes[0], a);
      AtSplit(d, p, first, AllSized(sizes[1..], args[1..]));
      BulksFitAt(d, p + |first|, sizes[1..], args[1..]);
      BulkAt(d, p, sizes[0], a);
      BulkFitsAt(d, p, sizes[0], a);
    }
  }

  lemma ParseFitsOfEncode(args: seq<Bytes>, rest: Bytes)
    requires Encodable(args)
    ensures ParseFits(Encode(args) + rest)
  {
    hide Bulk, Bulks, NumberLine, AllSized, EncodeArgs, At, RunFits, BulksFit, Numeral, Decimal;
    var s, body := Decimal(|args|), AllSized(Sizes(args), args);
    assert Numeral(s) && Value(s) == |args| by {
      DecimalIsNumeral(|args|);
    }
    EncodedIsSized(args);
    var head := [STAR] + s + CRLF;
    var d := head + body + rest;
    assert d == [STAR] + s + CRLF + (body + rest);
    NumberLineOf([STAR], s, body + rest);
    RunFitsOf([STAR], s, body + rest);
    AtMiddle(head, body, rest);
    BulksFitAt(d, |head|, Sizes(args), args);
    assert d == Encode(args) + rest && d[0] == STAR;
  }

  // Encoding and parsing, as the code does them, give back the arguments and
  // the exact length, whatever follows.
  method RoundTrip(args: seq<Bytes>, rest: Bytes) returns (req: Request)
    requires Encodable(args)
    ensures req == Request(args, |Encode(args)|)
  {
    hide ParseFits, Parse;
    var out := EncodeRequest(args);
    ParseFitsOfEncode(args, rest);
    ParseOfEncode(args, rest);
    req := ParseRequest(out + rest);
  }

  // ---- replies ----------------------------------------------------------------------------------

  // The end of the first line that ends at or after p, or 0.
  function LineEnd(d: Bytes, p: nat): (q: nat)
    ensures q > 0 ==> p + 2 <= q <= |d|
    decreases |d| - p
  {
    if p >= |d| then 0 else if EndsLine(d, p) then p + 2 else LineEnd(d, p + 1)
  }

  // The header of a bulk string or array: a sign, a number, the end of the line.
  datatype Head = Head(negative: bool, value: nat, next: nat)

  function SignedLine(d: Bytes): (r: Option<Head>)
    ensures r.Some? ==> 3 <= r.value.next <= |d|
  {
    if |d| <= 1 then None
    else
      var negative := d[1] == MINUS;
      match NumberLine(d, if negative then 2 else 1)
      case None => None
      case Some(h) => Some(Head(negative, h.value, h.next))
  }

  // The length of the reply at the front of a buffer, 0 when it is not whole.
  function Detect(d: Bytes): (n: nat)
    ensures n <= |d|
    decreases |d|, 1, 0
  {
    if d == [] then 0
    else if d[0] == PLUS || d[0] == MINUS || d[0] == COLON then LineEnd(d, 1)
    else if d[0] == DOLLAR then
      match SignedLine(d)
      case None => 0
      case Some(h) =>
        if h.negative then h.next
        else if h.next + h.value + 2 <= |d| then h.next + h.value + 2 else 0
    else if d[0] == STAR then
      match SignedLine(d)
      case None => 0
      case Some(h) => if h.negative then h.next else Elements(d, h.next, h.value)
    else 0
  }

  function Elements(d: Bytes, offset: nat, count: nat): (n: nat)
    requires 0 < offset <= |d|
    ensures n == 0 || offset <= n <= |d|
    decreases |d|, 0, count
  {
    if count == 0 then offset
    else
      var n := Detect(d[offset..]);
      if n == 0 then 0 else Elements(d, offset + n, count - 1)
  }

  predicate SignedFits(d: Bytes) {
    |d| > 1 ==> RunFits(d, if d[1] == MINUS then 2 else 1)
  }

  // Every length and count the scanner reads fits an int64_t.
  predicate DetectFits(d: Bytes)
    decreases |d|, 1, 0
  {
    d != [] && (d[0] == DOLLAR || d[0] == STAR) ==>
      && SignedFits(d)
      && (d[0] == STAR && SignedLine(d).Some? && !SignedLine(d).value.negative ==>
            ElementsFit(d, SignedLine(d).value.next, SignedLine(d).value.value))
  }

  predicate ElementsFit(d: Bytes, offset: nat, count: nat)
    requires 0 < offset <= |d|
    decreases |d|, 0, count
  {
    count == 0
    || (DetectFits(d[offset..])
        && (Detect(d[offset..]) > 0 ==> ElementsFit(d, offset + Detect(d[offset..]), count - 1)))
  }

  datatype SignedRead = SignedRead(negative: bool, value: int, next: nat)

  method ReadSignedLine(d: Bytes) returns (r: Option<SignedRead>)
    requires d != []
    ensures r.None? <==> SignedLine(d).None?
    ensures r.Some? ==>
              var h := SignedLine(d).value;
              && r.value.negative == h.negative && r.value.next == h.next
              && (SignedFits(d) ==> r.value.value == h.value)
  {
    hide Wrapped;
    var p := 1;
    if p >= |d| {
      return None;
    }
    var negative := false;
    if d[p] == MINUS {
      negative := true;
      p := p + 1;
    }
    var value, q := ReadNumber(d, p);
    if q + 1 >= |d| || d[q] != CR || d[q + 1] != LF {
      return None;
    }
    r := Some(SignedRead(negative, value, q + 2));
  }

  // A status line ends at the first line end.
  method ScanLine(d: Bytes) returns (n: nat)
    ensures n == LineEnd(d, 1)
  {
    var p := 1;
    while p < |d|
      invariant 1 <= p && LineEnd(d, p) == LineEnd(d, 1)
      invariant p <= |d| || d == []
    {
      if d[p] == CR && p + 1 < |d| && d[p + 1] == LF {
        return p + 2;
      }
      p := p + 1;
    }
    n := 0;
  }

  // detect_response
  method DetectResponse(d: Bytes) returns (n: nat)
    ensures n <= |d| && (DetectFits(d) ==> n == Detect(d))
    decreases |d|
  {
    hide SignedLine, LineEnd, RunFits;
    if d == [] {
      return 0;
    }
    if d[0] == PLUS || d[0] == MINUS || d[0] == COLON {
      n := ScanLine(d);
      return;
    }
    if d[0] != DOLLAR && d[0] != STAR {
      return 0;
    }
    var head := ReadSignedLine(d);
    if head.None? {
      return 0;
    }
    var h := head.value;
    if h.negative {
      return h.next;
    }
    if d[0] == DOLLAR {
      if h.value < 0 || h.next + h.value + 2 > |d| { // below zero: wrapped, outside the contract
        return 0;
      }
      n := h.next + h.value + 2;
      return;
    }
    ghost var fits := DetectFits(d);
    var offset, i := h.next, 0;
    while i < h.value
      invariant 0 <= i && 0 < offset <= |d|
      invariant fits ==> i <= h.value && ElementsFit(d, offset, h.value - i)
      invariant fits ==> Elements(d, offset, h.value - i) == Detect(d)
    {
      var consumed := DetectResponse(d[offset..]);
      if consumed == 0 {
        return 0;
      }
      offset := offset + consumed;
      i := i + 1;
    }
    n := offset;
  }

  lemma {:induction false} LineEndStable(d: Bytes, e: Bytes, p: nat, k: nat)
    requires LineEnd(d, p) > 0 && d[..LineEnd(d, p)] <= e && k < LineEnd(d, p)
    ensures LineEnd(e, p) == LineEnd(d, p)
    ensures LineEnd(d[..k], p) == 0
    decreases |d| - p
  {
    var n := LineEnd(d, p);
    assert forall i | 0 <= i < n :: d[..n][i] == d[i] && e[i] == d[..n][i];
    if !EndsLine(d, p) {
      LineEndStable(d, e, p + 1, k);
    }
  }

  lemma SignedLineStable(d: Bytes, e: Bytes)
    requires SignedLine(d).Some? && d[..SignedLine(d).value.next] <= e
    ensures SignedLine(e) == SignedLine(d)
  {
    var n := SignedLine(d).value.next;
    assert d[..n][1] == d[1] == e[1];
    NumberLineStable(d, e, if d[1] == MINUS then 2 else 1);
  }

  lemma SignedLineCut(d: Bytes, k: nat)
    requires SignedLine(d).Some? && k < SignedLine(d).value.next
    ensures SignedLine(d[..k]).None?
  {
    if k > 1 {
      NumberLineCut(d, if d[1] == MINUS then 2 else 1, k);
    }
  }

  // A positive answer is unchanged by bytes that follow, and no shorter prefix
  // gets one.
  lemma {:induction false} DetectStable(d: Bytes, e: Bytes, k: nat)
    requires Detect(d) > 0 && d[..Detect(d)] <= e && k < Detect(d)
    ensures Detect(e) == Detect(d)
    ensures Detect(d[..k]) == 0
    decreases |d|, 1, 0
  {
    var n := Detect(d);
    assert d[..n][0] == d[0] == e[0];
    if d[0] == PLUS || d[0] == MINUS || d[0] == COLON {
      LineEndStable(d, e, 1, k);
    } else {
      var h := SignedLine(d).value;
      assert d[..h.next] == d[..n][..h.next];
      SignedLineStable(d, e);
      if k < h.next {
        SignedLineCut(d, k);
      } else {
        assert d[..h.next] <= d[..k];
        SignedLineStable(d, d[..k]);
      }
      if d[0] == STAR && !h.negative {
        if n > h.next {
          ElementsStable(d, e, h.next, h.value, if k < h.next then h.next else k);
        }
      }
    }
  }

  // One element seen from the whole buffer, from a longer one and from a prefix.
  lemma ElementSlices(d: Bytes, e: Bytes, n: nat, offset: nat, m: nat, k: nat)
    requires offset + m <= n <= |d| && d[..n] <= e && offset <= k <= |d|
    ensures d[offset..][..m] <= e[offset..]
    ensures d[..k][offset..] == d[offset..][..k - offset]
    ensures offset + m <= k ==> d[offset..][..m] <= d[..k][offset..]
  {
    assert forall i | 0 <= i < n :: d[..n][i] == d[i] && e[i] == d[..n][i];
    assert d[offset..][..m] == e[offset..][..m];
    if offset + m <= k {
      assert d[offset..][..m] == d[..k][offset..][..m];
    }
  }

  lemma {:induction false} ElementsStable(d: Bytes, e: Bytes, offset: nat, count: nat, k: nat)
    requires 0 < offset <= |d| && Elements(d, offset, count) > 0 && d[..Elements(d, offset, count)] <= e
    requires offset <= k < Elements(d, offset, count)
    ensures Elements(e, offset, count) == Elements(d, offset, count)
    ensures Elements(d[..k], offset, count) == 0
    decreases |d|, 0, count
  {
    hide Detect;
    var n, m := Elements(d, offset, count), Detect(d[offset..]);
    ElementSlices(d, e, n, offset, m, k);
    DetectStable(d[offset..], e[offset..], if k - offset < m then k - offset else 0);
    if k < offset + m {
      if offset + m < n {
        ElementsStable(d, e, offset + m, count - 1, offset + m);
      }
    } else {
      DetectStable(d[offset..], d[..k][offset..], 0);
      ElementsStable(d, e, offset + m, count - 1, k);
    }
  }

  lemma SignedFitsStable(d: Bytes, e: Bytes)
    requires SignedLine(d).Some? && d[..SignedLine(d).value.next] <= e && SignedFits(d)
    ensures SignedFits(e)
  {
    hide RunFits;
    var n := SignedLine(d).value.next;
    assert d[..n][1] == d[1] == e[1];
    RunFitsStable(d, e, if d[1] == MINUS then 2 else 1);
  }

  lemma SignedFitsCut(d: Bytes, k: nat)
    requires SignedFits(d) && k <= |d|
    ensures SignedFits(d[..k])
  {
    hide RunFits;
    if k > 1 {
      RunFitsCut(d, if d[1] == MINUS then 2 else 1, k);
    }
  }

  // With fitting numbers, what DetectStable says holds of the code's own answers.
  lemma {:induction false} DetectFitsStable(d: Bytes, e: Bytes, k: nat)
    requires Detect(d) > 0 && d[..Detect(d)] <= e && k < Detect(d) && DetectFits(d)
    ensures DetectFits(e) && DetectFits(d[..k])
    decreases |d|, 1, 0
  {
    hide SignedLine, SignedFits, Elements, ElementsFit, LineEnd;
    var n := Detect(d);
    assert d[..n][0] == d[0] == e[0];
    if d[0] == DOLLAR || d[0] == STAR {
      var h := SignedLine(d).value;
      assert d[..h.next] == d[..n][..h.next];
      SignedLineStable(d, e);
      SignedFitsStable(d, e);
      SignedFitsCut(d, k);
      if k < h.next {
        SignedLineCut(d, k);
      } else {
        assert d[..h.next] <= d[..k];
        SignedLineStable(d, d[..k]);
      }
      if d[0] == STAR && !h.negative {
        if n > h.next {
          ElementsFitStable(d, e, h.next, h.value, if k < h.next then h.next else k);
        } else {
          NoElements(d, e, h.next, h.value);
        }
      }
    }
  }

  // Elements take bytes: a count that consumed none was zero.
  lemma NoElements(d: Bytes, e: Bytes, offset: nat, count: nat)
    requires 0 < offset <= |d| && offset <= |e| && Elements(d, offset, count) == offset
    ensures count == 0 && ElementsFit(e, offset, count)
  {
    hide Detect, DetectFits;
  }

  lemma {:induction false} ElementsFitStable(d: Bytes, e: Bytes, offset: nat, count: nat, k: nat)
    requires 0 < offset <= |d| && Elements(d, offset, count) > 0 && d[..Elements(d, offset, count)] <= e
    requires offset <= k < Elements(d, offset, count) && ElementsFit(d, offset, count)
    ensures ElementsFit(e, offset, count) && ElementsFit(d[..k], offset, count)
    decreases |d|, 0, count
  {
    hide Detect, DetectFits;
    var n, m := Elements(d, offset, count), Detect(d[offset..]);
    ElementSlices(d, e, n, offset, m, k);
    var j := if k - offset < m then k - offset else 0;
    DetectStable(d[offset..], e[offset..], j);
    DetectFitsStable(d[offset..], e[offset..], j);
    if k < offset + m {
      if offset + m < n {
        ElementsFitStable(d, e, offset + m, count - 1, offset + m);
      } else {
        NoElements(d, e, offset + m, count - 1);
      }
    } else {
      DetectStable(d[offset..], d[..k][offset..], 0);
      DetectFitsStable(d[offset..], d[..k][offset..], 0);
      ElementsFitStable(d, e, offset + m, count - 1, k);
    }
  }

  // ---- what a reply is ------------------------------------------------------------------------

  // The five reply types as the scanner takes them, nested as deep as one likes:
  // a line without a line end inside, a negative length or count, bytes of a
  // length and two more, and a count of elements. Numbers are in any digits.
  datatype Reply =
    | Simple(kind: byte, text: Bytes)
    | Nil(many: bool, size: Bytes)
    | Blob(size: Bytes, bytes: Bytes, tail: Bytes)
    | Array(count: Bytes, items: seq<Reply>)

  predicate WellFormed(r: Reply) {
    match r
    case Simple(kind, text) =>
      && (kind == PLUS || kind == MINUS || kind == COLON)
      && forall i | 0 <= i < |text| :: !EndsLine(text, i)
    case Nil(_, size) => Numeral(size)
    case Blob(size, bytes, tail) => Numeral(size) && Value(size) == |bytes| && |tail| == 2
    case Array(count, items) =>
      Numeral(count) && Value(count) == |items| && forall x | x in items :: WellFormed(x)
  }

  function EncodeReply(r: Reply): (b: Bytes)
    ensures b != []
    decreases r
  {
    match r
    case Simple(kind, text) => [kind] + text + CRLF
    case Nil(many, size) => [if many then STAR else DOLLAR, MINUS] + size + CRLF
    case Blob(size, bytes, tail) => [DOLLAR] + size + CRLF + (bytes + tail)
    case Array(count, items) => [STAR] + count + CRLF + EncodeItems(items)
  }

  function EncodeItems(items: seq<Reply>): Bytes
    decreases items, 0
  {
    if items == [] then [] else EncodeReply(items[0]) + EncodeItems(items[1..])
  }

  // Requests and replies as they look on the wire.
  function Ascii(s: string): (b: Bytes)
    requires forall i | 0 <= i < |s| :: s[i] < 128 as char
    ensures |b| == |s| && forall i | 0 <= i < |s| :: b[i] as char == s[i]
  {
    seq(|s|, i requires 0 <= i < |s| => s[i] as int)
  }

  lemma RequestOctets()
    ensures Encode([Ascii("PING")]) == Ascii("*1\r\n$4\r\nPING\r\n")
  {
    var ping := Ascii("PING");
    var none: seq<Bytes> := [];
    assert [ping][..0] == none;
    assert EncodeArgs([ping]) == EncodeArgs(none) + EncodeArg(ping);
    assert EncodeArg(ping) == [36, 52, 13, 10] + (ping + CRLF);
  }

  lemma ReplyOctets()
    ensures EncodeReply(Simple(PLUS, Ascii("OK"))) == Ascii("+OK\r\n")
    ensures EncodeReply(Simple(MINUS, Ascii("ERR"))) == Ascii("-ERR\r\n")
    ensures EncodeReply(Simple(COLON, Ascii("7"))) == Ascii(":7\r\n")
    ensures EncodeReply(Nil(false, Ascii("1"))) == Ascii("$-1\r\n")
    ensures EncodeReply(Nil(true, Ascii("1"))) == Ascii("*-1\r\n")
  {
  }

  lemma NestedOctets()
    ensures var a := Blob(Ascii("1"), Ascii("a"), CRLF);
            EncodeReply(Array(Ascii("1"), [a])) == Ascii("*1\r\n$1\r\na\r\n")
  {
    var a := Blob(Ascii("1"), Ascii("a"), CRLF);
    assert [a][1..] == [];
    assert EncodeItems([a]) == EncodeReply(a) + EncodeItems([]);
    assert EncodeReply(a) == [36, 49, 13, 10] + ([97] + CRLF);
  }

  lemma SignedLineOf(kind: byte, s: Bytes, rest: Bytes)
    requires Numeral(s)
    ensures SignedLine([kind] + s + CRLF + rest) == Some(Head(false, Value(s), 1 + |s| + 2))
    ensures SignedLine([kind, MINUS] + s + CRLF + rest) == Some(Head(true, Value(s), 2 + |s| + 2))
  {
    NumberLineOf([kind], s, rest);
    NumberLineOf([kind, MINUS], s, rest);
    assert ([kind] + s + CRLF + rest)[1] == if s == [] then CR else s[0];
    assert ([kind, MINUS] + s + CRLF + rest)[1] == MINUS;
  }

  lemma {:induction false} LineEndOf(d: Bytes, p: nat, q: nat)
    requires p <= q && EndsLine(d, q) && forall i | p <= i < q :: !EndsLine(d, i)
    ensures LineEnd(d, p) == q + 2
    decreases q - p
  {
    if p < q {
      LineEndOf(d, p + 1, q);
    }
  }

  lemma {:induction false} LineEndIsFirst(d: Bytes, p: nat)
    requires LineEnd(d, p) > 0
    ensures EndsLine(d, LineEnd(d, p) - 2) && forall i | p <= i < LineEnd(d, p) - 2 :: !EndsLine(d, i)
    decreases |d| - p
  {
    if !EndsLine(d, p) {
      LineEndIsFirst(d, p + 1);
    }
  }

  lemma DetectOfBlob(r: Reply, rest: Bytes)
    requires r.Blob? && WellFormed(r)
    ensures Detect(EncodeReply(r) + rest) == |EncodeReply(r)|
  {
    hide SignedLine, Numeral;
    assert EncodeReply(r) + rest == [DOLLAR] + r.size + CRLF + (r.bytes + r.tail + rest);
    SignedLineOf(DOLLAR, r.size, r.bytes + r.tail + rest);
  }

  lemma DetectOfLine(kind: byte, text: Bytes, rest: Bytes)
    requires WellFormed(Simple(kind, text))
    ensures Detect(EncodeReply(Simple(kind, text)) + rest) == |EncodeReply(Simple(kind, text))|
  {
    var d := EncodeReply(Simple(kind, text)) + rest;
    assert forall i | 0 <= i < |text| :: d[1 + i] == text[i] && !EndsLine(text, i);
    assert d[1 + |text|] == CR;
    LineEndOf(d, 1, 1 + |text|);
  }

  lemma DetectOfNil(r: Reply, rest: Bytes)
    requires r.Nil? && WellFormed(r)
    ensures Detect(EncodeReply(r) + rest) == |EncodeReply(r)|
  {
    hide SignedLine, Numeral;
    SignedLineOf(if r.many then STAR else DOLLAR, r.size, rest);
  }

  // The scanner finds the exact end of every reply, whatever follows.
  lemma {:induction false} DetectOfReply(r: Reply, rest: Bytes)
    requires WellFormed(r)
    ensures Detect(EncodeReply(r) + rest) == |EncodeReply(r)|
    decreases r
  {
    match r
    case Simple(kind, text) => DetectOfLine(kind, text, rest);
    case Nil(_, _) => DetectOfNil(r, rest);
    case Blob(_, _, _) => DetectOfBlob(r, rest);
    case Array(count, items) =>
      hide SignedLine, At, Numeral;
      var head := [STAR] + count + CRLF;
      var d := head + EncodeItems(items) + rest;
      assert d == head + (EncodeItems(items) + rest);
      SignedLineOf(STAR, count, EncodeItems(items) + rest);
      AtMiddle(head, EncodeItems(items), rest);
      ElementsAt(d, |head|, items);
  }

  lemma EncodeItemsFirst(items: seq<Reply>)
    ensures items == [] ==> EncodeItems(items) == []
    ensures items != [] ==> EncodeItems(items) == EncodeReply(items[0]) + EncodeItems(items[1..])
  {
  }

  lemma {:induction false} ElementsAt(d: Bytes, offset: nat, items: seq<Reply>)
    requires 0 < offset <= |d| && At(d, offset, EncodeItems(items)) && forall x | x in items :: WellFormed(x)
    ensures Elements(d, offset, |items|) == offset + |EncodeItems(items)|
    decreases items, 0
  {
    hide Detect, EncodeReply, EncodeItems, WellFormed, At;
    EncodeItemsFirst(items);
    if items != [] {
      var first, more := EncodeReply(items[0]), EncodeItems(items[1..]);
      AtSplit(d, offset, first, more);
      AtDrop(d, offset, first);
      var next := offset + |first|;
      DetectOfReply(items[0], d[next..]);
      ElementsAt(d, next, items[1..]);
    }
  }

  // ---- every answer is a reply -----------------------------------------------------------------

  // The header of a reply, read back from the buffer.
  lemma HeaderAt(d: Bytes) returns (s: Bytes)
    requires SignedLine(d).Some?
    ensures var h := SignedLine(d).value;
            && Numeral(s) && Value(s) == h.value
            && d[..h.next] == (if h.negative then [d[0], MINUS] else [d[0]]) + s + CRLF
  {
    hide NumberLine, Numeral;
    var h := SignedLine(d).value;
    var p := if h.negative then 2 else 1;
    s := LineAt(d, p);
    assert d[..p] == if h.negative then [d[0], MINUS] else [d[0]];
    assert d[..h.next] == d[..p] + d[p..h.next];
    Assoc(d[..p], s, CRLF);
  }

  lemma LineReplyAt(d: Bytes) returns (r: Reply)
    requires d != [] && (d[0] == PLUS || d[0] == MINUS || d[0] == COLON) && Detect(d) > 0
    ensures WellFormed(r) && EncodeReply(r) == d[..Detect(d)]
  {
    var n := LineEnd(d, 1);
    LineEndIsFirst(d, 1);
    var text := d[1..n - 2];
    r := Simple(d[0], text);
    assert forall i | 0 <= i < |text| :: EndsLine(text, i) ==> EndsLine(d, i + 1);
    assert d[..n] == [d[0]] + d[1..n - 2] + d[n - 2..n];
  }

  lemma BlobAt(d: Bytes) returns (r: Reply)
    requires d != [] && d[0] == DOLLAR && Detect(d) > 0
    ensures WellFormed(r) && EncodeReply(r) == d[..Detect(d)]
  {
    hide SignedLine, Numeral;
    var h := SignedLine(d).value;
    var s := HeaderAt(d);
    if h.negative {
      r := Nil(false, s);
    } else {
      var end := h.next + h.value;
      r := Blob(s, d[h.next..end], d[end..end + 2]);
      assert d[..end + 2] == d[..h.next] + (d[h.next..end] + d[end..end + 2]);
    }
  }

  lemma {:induction false} ReplyAt(d: Bytes) returns (r: Reply)
    requires Detect(d) > 0
    ensures WellFormed(r) && EncodeReply(r) == d[..Detect(d)]
    decreases |d|, 1, 0
  {
    hide SignedLine, Numeral;
    if d[0] == DOLLAR {
      r := BlobAt(d);
    } else if d[0] != STAR {
      r := LineReplyAt(d);
    } else {
      var h := SignedLine(d).value;
      var s := HeaderAt(d);
      if h.negative {
        r := Nil(true, s);
      } else {
        var items := ItemsAt(d, h.next, h.value);
        r := Array(s, items);
        assert d[..Detect(d)] == d[..h.next] + d[h.next..Detect(d)];
      }
    }
  }

  lemma {:induction false} ItemsAt(d: Bytes, offset: nat, count: nat) returns (items: seq<Reply>)
    requires 0 < offset <= |d| && Elements(d, offset, count) > 0
    ensures |items| == count && (forall x | x in items :: WellFormed(x))
    ensures EncodeItems(items) == d[offset..Elements(d, offset, count)]
    decreases |d|, 0, count
  {
    hide Detect, EncodeReply, WellFormed;
    if count == 0 {
      items := [];
    } else {
      var n, end := Detect(d[offset..]), Elements(d, offset, count);
      var r := ReplyAt(d[offset..]);
      var more := ItemsAt(d, offset + n, count - 1);
      items := [r] + more;
      assert items[1..] == more;
      assert d[offset..][..n] == d[offset..offset + n];
      assert d[offset..end] == d[offset..offset + n] + d[offset + n..end];
    }
  }

  // The scanner answers with a length exactly where a whole reply of that length
  // stands at the front.
  lemma DetectExactly(d: Bytes, n: nat)
    requires n > 0
    ensures Detect(d) == n <==> exists r :: WellFormed(r) && |EncodeReply(r)| == n && EncodeReply(r) <= d
  {
    hide Detect, WellFormed, EncodeReply;
    if Detect(d) == n {
      var r := ReplyAt(d);
      assert WellFormed(r) && |EncodeReply(r)| == n && EncodeReply(r) <= d;
    }
    if r :| WellFormed(r) && |EncodeReply(r)| == n && EncodeReply(r) <= d {
      DetectOfReply(r, d[n..]);
      assert d == EncodeReply(r) + d[n..];
    }
  }

  // The numbers written in a reply are below 2^63.
  predicate Fits(r: Reply) {
    match r
    case Simple(_, _) => true
    case Nil(_, size) => Value(size) < INT64
    case Blob(size, _, _) => Value(size) < INT64
    case Array(count, items) => Value(count) < INT64 && forall x | x in items :: Fits(x)
  }

  lemma SignedFitsOf(kind: byte, s: Bytes, rest: Bytes)
    requires Numeral(s)
    ensures SignedFits([kind] + s + CRLF + rest) <==> Value(s) < INT64
    ensures SignedFits([kind, MINUS] + s + CRLF + rest) <==> Value(s) < INT64
  {
    hide RunFits;
    RunFitsOf([kind], s, rest);
    RunFitsOf([kind, MINUS], s, rest);
    assert ([kind] + s + CRLF + rest)[1] == if s == [] then CR else s[0];
    assert ([kind, MINUS] + s + CRLF + rest)[1] == MINUS;
  }

  lemma FitsOfBlob(r: Reply, rest: Bytes)
    requires r.Blob? && WellFormed(r)
    ensures DetectFits(EncodeReply(r) + rest) <==> Fits(r)
  {
    hide SignedLine, SignedFits, Numeral;
    assert EncodeReply(r) + rest == [DOLLAR] + r.size + CRLF + (r.bytes + r.tail + rest);
    SignedFitsOf(DOLLAR, r.size, r.bytes + r.tail + rest);
  }

  lemma FitsOfNil(r: Reply, rest: Bytes)
    requires r.Nil? && WellFormed(r)
    ensures DetectFits(EncodeReply(r) + rest) <==> Fits(r)
  {
    hide SignedLine, SignedFits, Numeral, ElementsFit;
    var kind := if r.many then STAR else DOLLAR;
    SignedFitsOf(kind, r.size, rest);
    SignedLineOf(kind, r.size, rest);
  }

  // Every number the scanner meets fits exactly when those of the reply do.
  lemma {:induction false} DetectFitsOfReply(r: Reply, rest: Bytes)
    requires WellFormed(r)
    ensures DetectFits(EncodeReply(r) + rest) <==> Fits(r)
    decreases r
  {
    match r
    case Simple(kind, text) => assert (EncodeReply(r) + rest)[0] == kind;
    case Nil(_, _) => FitsOfNil(r, rest);
    case Blob(_, _, _) => FitsOfBlob(r, rest);
    case Array(count, items) =>
      hide SignedLine, SignedFits, At, Numeral;
      var head := [STAR] + count + CRLF;
      var d := head + EncodeItems(items) + rest;
      assert d == head + (EncodeItems(items) + rest);
      SignedLineOf(STAR, count, EncodeItems(items) + rest);
      SignedFitsOf(STAR, count, EncodeItems(items) + rest);
      AtMiddle(head, EncodeItems(items), rest);
      ElementsFitAt(d, |head|, items);
  }

  lemma {:induction false} ElementsFitAt(d: Bytes, offset: nat, items: seq<Reply>)
    requires 0 < offset <= |d| && At(d, offset, EncodeItems(items))
    requires forall x | x in items :: WellFormed(x)
    ensures ElementsFit(d, offset, |items|) <==> forall x | x in items :: Fits(x)
    decreases items, 0
  {
    hide Detect, DetectFits, EncodeReply, EncodeItems, WellFormed, Fits, At;
    EncodeItemsFirst(items);
    if items != [] {
      var first, more := EncodeReply(items[0]), EncodeItems(items[1..]);
      AtSplit(d, offset, first, more);
      AtDrop(d, offset, first);
      var next := offset + |first|;
      DetectOfReply(items[0], d[next..]);
      DetectFitsOfReply(items[0], d[next..]);
      ElementsFitAt(d, next, items[1..]);
    }
  }

  // The scanner, as the code runs it, finds the exact end of every reply a
  // backend can hold, whatever follows.
  method DetectReply(r: Reply, rest: Bytes) returns (n: nat)
    requires WellFormed(r) && Fits(r)
    ensures n == |EncodeReply(r)|
  {
    hide DetectFits, Detect;
    DetectFitsOfReply(r, rest);
    DetectOfReply(r, rest);
    n := DetectResponse(EncodeReply(r) + rest);
  }
}
