module Prelude {
  // Small shared vocabulary: optional values, bytes, and sums over the members
  // of a sequence (used to count threads, coroutines and tickets by phase).

  datatype Option<+T> = None | Some(value: T)

  type byte = b: nat | b < 256

  type Bytes = seq<byte>

  lemma Assoc<A>(a: seq<A>, b: seq<A>, c: seq<A>)
    ensures a + (b + c) == (a + b) + c
  {
  }

  lemma SplitAt<A>(s: seq<A>, n: nat)
    requires n < |s|
    ensures s == s[..n] + ([s[n]] + s[n + 1..])
    ensures s[..n + 1] == s[..n] + [s[n]]
  {
  }

  function DropAt<A>(s: seq<A>, i: nat): (r: seq<A>)
    requires i < |s|
    ensures |r| == |s| - 1
    ensures forall j | 0 <= j < |r| :: r[j] == s[if j < i then j else j + 1]
  {
    s[..i] + s[i + 1..]
  }

  // The total weight of a sequence; with a 0/1 weight, a count.
  function Sum<A>(s: seq<A>, w: A -> nat): nat {
    if s == [] then 0 else w(s[0]) + Sum(s[1..], w)
  }

  // Replacing one member changes the total by the difference of the two weights.
  lemma {:induction false} SumUpdate<A>(s: seq<A>, i: nat, x: A, w: A -> nat)
    requires i < |s|
    ensures Sum(s[i := x], w) + w(s[i]) == Sum(s, w) + w(x)
  {
    var t := s[i := x];
    if i == 0 {
      assert t[1..] == s[1..];
    } else {
      assert t[1..] == s[1..][i - 1 := x];
      SumUpdate(s[1..], i - 1, x, w);
    }
  }

  lemma {:induction false} SumAtLeast<A>(s: seq<A>, i: nat, w: A -> nat)
    requires i < |s|
    ensures w(s[i]) <= Sum(s, w)
  {
    if i > 0 {
      SumAtLeast(s[1..], i - 1, w);
    }
  }

  lemma {:induction false} SumAtLeastTwo<A>(s: seq<A>, i: nat, j: nat, w: A -> nat)
    requires i < j < |s|
    ensures w(s[i]) + w(s[j]) <= Sum(s, w)
  {
    if i == 0 {
      SumAtLeast(s[1..], j - 1, w);
    } else {
      SumAtLeastTwo(s[1..], i - 1, j - 1, w);
    }
  }

  lemma {:induction false} SumZero<A>(s: seq<A>, w: A -> nat)
    requires forall i | 0 <= i < |s| :: w(s[i]) == 0
    ensures Sum(s, w) == 0
  {
    if s != [] {
      forall i | 0 <= i < |s[1..]| ensures w(s[1..][i]) == 0 {
        assert s[1..][i] == s[i + 1];
      }
      SumZero(s[1..], w);
    }
  }

  // A positive total has a member of positive weight.
  lemma {:induction false} SumWitness<A>(s: seq<A>, w: A -> nat) returns (i: nat)
    requires Sum(s, w) > 0
    ensures i < |s| && w(s[i]) > 0
  {
    if w(s[0]) > 0 {
      i := 0;
    } else {
      var j := SumWitness(s[1..], w);
      i := j + 1;
    }
  }

  // ---- sockets ------------------------------------------------------------------

  // What a socket accepts or yields for one call: a count, or an error.
  datatype IoResult = Moved(n: nat) | Failed

  predicate Fails(r: IoResult) {
    r.Failed? || r.n == 0
  }

  function Min(a: nat, b: nat): nat {
    if a < b then a else b
  }

  // How many of `left` bytes a socket with this script takes before it fails.
  function Accepts(left: nat, writes: seq<IoResult>): (n: nat)
    ensures n <= left
  {
    if left == 0 || writes == [] || Fails(writes[0]) then 0
    else
      var n := Min(writes[0].n, left);
      n + Accepts(left - n, writes[1..])
  }
}
