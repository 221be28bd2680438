// Bitwise operators on naturals, written bit by bit, and the two idioms the
// queues build on them: masking an index with capacity - 1, and rounding a
// capacity up to a power of two by smearing its leading bit.
module Bits {
  import opened Prelude

  function Pow2(k: nat): (p: nat)
    ensures p >= 1
  {
    if k == 0 then 1 else 2 * Pow2(k - 1)
  }

  function And(a: nat, b: nat): nat {
    if a == 0 || b == 0 then 0
    else (if a % 2 == 1 && b % 2 == 1 then 1 else 0) + 2 * And(a / 2, b / 2)
  }

  function Or(a: nat, b: nat): nat
    decreases a + b
  {
    if a == 0 && b == 0 then 0
    else (if a % 2 == 1 || b % 2 == 1 then 1 else 0) + 2 * Or(a / 2, b / 2)
  }

  function Xor(a: nat, b: nat): nat
    decreases a + b
  {
    if a == 0 && b == 0 then 0
    else (if a % 2 != b % 2 then 1 else 0) + 2 * Xor(a / 2, b / 2)
  }

  function Shr(a: nat, k: nat): nat {
    Div(a, Pow2(k))
  }

  function Div(a: nat, m: nat): nat
    requires m > 0
  {
    a / m
  }

  // ---- masking ----------------------------------------------------------

  lemma {:induction false} MaskIsMod(x: nat, k: nat)
    ensures And(x, Pow2(k) - 1) == x % Pow2(k)
  {
    if k == 0 || x == 0 {
    } else {
      MaskIsMod(x / 2, k - 1);
      var q := Pow2(k - 1);
      assert (Pow2(k) - 1) / 2 == q - 1;
      ModOfHalf(x, q);
    }
  }

  lemma ModOfHalf(x: nat, q: nat)
    requires q > 0
    ensures x % (2 * q) == x % 2 + 2 * (x / 2 % q)
  {
    var h := x / 2;
    var d, r := h / q, h % q;
    assert x == (2 * q) * d + (2 * r + x % 2);
    DivModUnique(x, 2 * q, d, 2 * r + x % 2);
  }

  // Euclidean division is determined by the bounds on the remainder.
  lemma DivModUnique(x: nat, m: nat, d: nat, r: nat)
    requires m > 0 && r < m && x == m * d + r
    ensures x / m == d && x % m == r
  {
    DivMod(x, m);
    if d + 1 <= x / m {
      MulMono(d + 1, x / m, m);
    } else if x / m + 1 <= d {
      MulMono(x / m + 1, d, m);
    }
  }

  // Two positions less than a capacity apart never share a slot.
  lemma SlotsApart(cap: nat, p: nat, q: nat)
    requires p < q < p + cap
    ensures p % cap != q % cap
  {
    DivMod(p, cap);
    DivMod(q, cap);
    if p / cap + 1 <= q / cap {
      MulMono(p / cap + 1, q / cap, cap);
    } else {
      MulMono(q / cap, p / cap, cap);
    }
  }

  // ---- exclusive or ------------------------------------------------------

  lemma {:induction false} XorTwice(a: nat, k: nat)
    ensures Xor(Xor(a, k), k) == a
    decreases a + k
  {
    if a == 0 && k == 0 {
    } else {
      XorTwice(a / 2, k / 2);
      var x := Xor(a, k);
      assert x / 2 == Xor(a / 2, k / 2);
    }
  }

  lemma {:induction false} XorBelow(a: nat, b: nat, k: nat)
    requires a < Pow2(k) && b < Pow2(k)
    ensures Xor(a, b) < Pow2(k)
  {
    if k > 0 && (a != 0 || b != 0) {
      XorBelow(a / 2, b / 2, k - 1);
    }
  }

  lemma {:induction false} XorZero(a: nat)
    ensures Xor(a, 0) == a
  {
    if a > 0 {
      XorZero(a / 2);
    }
  }

  // A key bit that is set always changes the byte it is applied to.
  lemma {:induction false} XorChanges(a: nat, k: nat)
    requires k > 0
    ensures Xor(a, k) != a
    decreases k
  {
    if a % 2 == k % 2 == 0 || (a % 2 == 1 && k % 2 == 0) {
      XorChanges(a / 2, k / 2);
    }
  }

  function XorByte(a: byte, k: byte): (r: byte)
    ensures Xor(r, k) == a
    ensures r == a <==> k == 0
  {
    XorTwice(a, k);
    XorZero(a);
    if k > 0 then XorChanges(a, k); ByteXor(a, k) else ByteXor(a, k)
  }

  function ByteXor(a: byte, k: byte): (r: byte)
    ensures r == Xor(a, k)
  {
    Pow2Small();
    XorBelow(a, k, 8);
    Xor(a, k)
  }

  // ---- rounding up to a power of two ----------------------------------------

  lemma {:induction false} OrBelow(a: nat, b: nat, k: nat)
    requires a < Pow2(k) && b < Pow2(k)
    ensures Or(a, b) < Pow2(k)
  {
    if k > 0 && (a != 0 || b != 0) {
      OrBelow(a / 2, b / 2, k - 1);
    }
  }

  lemma {:induction false} OrAtLeast(a: nat, b: nat)
    ensures Or(a, b) >= a && Or(a, b) >= b
    decreases a + b
  {
    if a != 0 || b != 0 {
      OrAtLeast(a / 2, b / 2);
    }
  }

  // High bits that the second operand does not reach pass through.
  lemma {:induction false} OrHigh(hi: nat, lo: nat, b: nat, e: nat)
    requires lo < Pow2(e) && b < Pow2(e)
    ensures Or(hi * Pow2(e) + lo, b) == hi * Pow2(e) + Or(lo, b)
    decreases e
  {
    hide Or, Pow2;
    Pow2Small();
    if e == 0 {
      OrZero(hi);
      OrZero(0);
      assert hi * Pow2(e) == hi;
    } else {
      Pow2Step(e);
      var h := hi * Pow2(e - 1);
      Doubled(hi, Pow2(e - 1));
      OrHigh(hi, lo / 2, b / 2, e - 1);
      HalfOf(h, lo);
      OrStep(2 * h + lo, b);
      OrStep(lo, b);
    }
  }

  lemma Doubled(a: nat, b: nat)
    ensures a * (2 * b) == 2 * (a * b)
  {
  }

  lemma HalfOf(h: nat, lo: nat)
    ensures (2 * h + lo) / 2 == h + lo / 2 && (2 * h + lo) % 2 == lo % 2
  {
  }

  lemma OrStep(a: nat, b: nat)
    ensures Or(a, b) == (if a % 2 == 1 || b % 2 == 1 then 1 else 0) + 2 * Or(a / 2, b / 2)
  {
  }

  lemma {:induction false} OrZero(a: nat)
    ensures Or(a, 0) == a
  {
    if a > 0 {
      OrZero(a / 2);
    }
  }

  lemma {:induction false} Pow2Add(a: nat, b: nat)
    ensures Pow2(a + b) == Pow2(a) * Pow2(b)
  {
    if a > 0 {
      Pow2Add(a - 1, b);
      assert Pow2(a + b) == 2 * (Pow2(a - 1) * Pow2(b)) == Pow2(a) * Pow2(b);
    }
  }

  lemma Pow2Small()
    ensures Pow2(0) == 1 && Pow2(1) == 2 && Pow2(8) == 256
  {
    assert Pow2(4) == 16;
  }

  lemma Pow2Step(k: nat)
    requires k > 0
    ensures Pow2(k) == 2 * Pow2(k - 1)
  {
  }

  lemma {:induction false} Pow2Mono(a: nat, b: nat)
    requires a <= b
    ensures Pow2(a) <= Pow2(b)
    decreases b
  {
    if a < b {
      Pow2Mono(a, b - 1);
    }
  }

  // v has its leading bit at position k and the top w bits of its k + 1 set.
  ghost predicate Smeared(v: nat, k: nat, w: nat) {
    Pow2(k + 1) - Pow2(if w <= k + 1 then k + 1 - w else 0) <= v < Pow2(k + 1)
  }

  // One step `n |= n >> w` doubles the run of leading ones.
  lemma SmearStep(v: nat, k: nat, w: nat)
    requires Smeared(v, k, w) && w >= 1
    ensures Smeared(Or(v, Shr(v, w)), k, 2 * w)
  {
    var s := Shr(v, w);
    DivBound(v, Pow2(w));
    OrBelow(v, s, k + 1);
    OrAtLeast(v, s);
    if w <= k + 1 {
      SmearLow(v, k, w, k + 1 - w);
    }
  }

  lemma SmearLow(v: nat, k: nat, w: nat, e: nat)
    requires Smeared(v, k, w) && w >= 1 && e + w == k + 1
    ensures Or(v, Shr(v, w)) >= Pow2(k + 1) - Pow2(if w <= e then e - w else 0)
  {
    hide Or, Shr, Pow2;
    var s := Shr(v, w);
    var lo := SplitTop(v, k, w, e);
    ShrBelow(v, e, w);
    OrHigh(Pow2(w) - 1, lo, s, e);
    OrAtLeast(lo, s);
    ShiftedRun(v, e, w, s);
  }

  lemma SplitTop(v: nat, k: nat, w: nat, e: nat) returns (lo: nat)
    requires Smeared(v, k, w) && w >= 1 && e + w == k + 1
    ensures lo < Pow2(e) && v == (Pow2(w) - 1) * Pow2(e) + lo
    ensures (Pow2(w) - 1) * Pow2(e) == Pow2(k + 1) - Pow2(e)
  {
    Pow2Add(w, e);
    MulMinus(Pow2(w), 1, Pow2(e));
    lo := v - (Pow2(k + 1) - Pow2(e));
  }

  lemma DivBound(v: nat, m: nat)
    requires m > 0
    ensures v / m <= v
  {
    DivMod(v, m);
    MulMono(1, m, v / m);
  }

  lemma ShrBelow(v: nat, e: nat, w: nat)
    requires v < Pow2(e + w)
    ensures Shr(v, w) < Pow2(e)
  {
    Pow2Add(e, w);
    DivBelow(v, Pow2(w), Pow2(e));
  }

  // The shifted run covers the next w bits below position e.
  lemma ShiftedRun(v: nat, e: nat, w: nat, s: nat)
    requires Pow2(e + w) - Pow2(e) <= v && s == Shr(v, w)
    ensures s >= Pow2(e) - Pow2(if w <= e then e - w else 0)
  {
    Pow2Small();
    hide Pow2;
    Pow2Add(e, w);
    if w <= e {
      Pow2Add(e - w, w);
      ShiftedBound(v, Pow2(e), Pow2(w), Pow2(e - w));
    } else {
      Pow2Mono(e, w);
      ShiftedBound(v, Pow2(e), Pow2(w), 1);
    }
  }

  // Dividing a run by w leaves a run short by d, where d * w covers the gap.
  lemma ShiftedBound(v: nat, e: nat, w: nat, d: nat)
    requires w > 0 && e * w - e <= v && e <= d * w
    ensures Div(v, w) >= e - d
  {
    MulMinus(e, d, w);
    DivAtLeast(v, w, e - d);
  }

  lemma MulMinus(a: int, b: int, c: int)
    ensures (a - b) * c == a * c - b * c
  {
  }

  lemma MulMono(a: int, b: int, c: nat)
    requires a <= b
    ensures a * c <= b * c
  {
    MulMinus(b, a, c);
  }

  lemma DivMod(v: nat, m: nat)
    requires m > 0
    ensures v == m * (v / m) + v % m == (v / m) * m + v % m
  {
  }

  lemma DivAtLeast(v: nat, m: nat, t: int)
    requires m > 0 && t * m <= v
    ensures v / m >= t
  {
    DivMod(v, m);
    if v / m + 1 <= t {
      MulMono(v / m + 1, t, m);
    }
  }

  lemma DivBelow(v: nat, m: nat, t: nat)
    requires m > 0 && v < t * m
    ensures v / m < t
  {
    DivMod(v, m);
    if t <= v / m {
      MulMono(t, v / m, m);
    }
  }

  lemma {:induction false} LeadingBit(v: nat) returns (k: nat)
    requires v >= 1
    ensures Pow2(k) <= v < Pow2(k + 1)
  {
    if v == 1 {
      k := 0;
    } else {
      var j := LeadingBit(v / 2);
      k := j + 1;
    }
  }

  const WORD := 0x1_0000_0000_0000_0000

  // r is the least power of two that is at least n.
  ghost predicate IsLeastPow2AtLeast(r: nat, n: nat) {
    && (exists k: nat :: r == Pow2(k))
    && r >= n
    && forall j: nat :: Pow2(j) >= n ==> r <= Pow2(j)
  }

  lemma WordIsPow2()
    ensures Pow2(64) == WORD && Pow2(63) == WORD / 2
  {
    hide Pow2;
    Pow2Small();
    Pow2Add(8, 8);
    Pow2Add(16, 16);
    Pow2Add(32, 32);
    Pow2Step(64);
  }

  // One shift-or statement of the source, `n |= n >> w`.
  method Smear(n: nat, ghost k: nat, w: nat) returns (v: nat)
    requires w >= 1
    requires n > 0 ==> Smeared(n, k, w)
    ensures n == 0 ==> v == 0
    ensures n > 0 ==> v > 0 && Smeared(v, k, 2 * w)
  {
    v := Or(n, Shr(n, w));
    if n == 0 {
      DivModUnique(0, Pow2(w), 0, 0);
    } else {
      SmearStep(n, k, w);
      OrAtLeast(n, Shr(n, w));
    }
  }

  // The source's six shift-or steps.
  method SmearAll(n0: nat, ghost k: nat) returns (n: nat)
    requires n0 > 0 ==> Smeared(n0, k, 1)
    ensures n0 == 0 ==> n == 0
    ensures n0 > 0 ==> Smeared(n, k, 64)
  {
    n := Smear(n0, k, 1);
    n := Smear(n, k, 2);
    n := Smear(n, k, 4);
    n := Smear(n, k, 8);
    n := Smear(n, k, 16);
    n := Smear(n, k, 32);
  }

  // In a 64-bit word.  The result is the least power of two exactly up to
  // 2^63; above, the sum wraps to zero.
  method RoundUpToPowerOfTwo(n0: nat) returns (r: nat)
    requires n0 < WORD
    ensures r < WORD
    ensures n0 <= WORD / 2 <==> IsLeastPow2AtLeast(r, n0)
    ensures n0 > WORD / 2 ==> r == 0
  {
    if n0 == 0 {
      OneIsLeast();
      return 1;
    }
    ghost var k := TopBit(n0 - 1);
    var n := SmearAll(n0 - 1, k);
    r := (n + 1) % WORD;
    RoundedUp(n0, k, n);
  }

  lemma TopBit(v: nat) returns (k: nat)
    ensures v > 0 ==> Smeared(v, k, 1) && Pow2(k) <= v < Pow2(k + 1)
  {
    k := 0;
    if v > 0 {
      k := LeadingBit(v);
    }
  }

  lemma OneIsLeast()
    ensures IsLeastPow2AtLeast(1, 0)
  {
    assert Pow2(0) == 1;
  }

  lemma ZeroIsNoPower(n: nat)
    ensures !IsLeastPow2AtLeast(0, n)
  {
  }

  lemma RoundedUp(n0: nat, k: nat, n: nat)
    requires 1 <= n0 < WORD
    requires n0 == 1 ==> n == 0
    requires n0 > 1 ==> Pow2(k) <= n0 - 1 < Pow2(k + 1) && Smeared(n, k, 64)
    ensures n + 1 <= WORD
    ensures n0 <= WORD / 2 <==> IsLeastPow2AtLeast((n + 1) % WORD, n0)
    ensures n0 > WORD / 2 ==> n + 1 == WORD
  {
    hide Pow2;
    WordIsPow2();
    ZeroIsNoPower(n0);
    Pow2Small();
    if n0 > 1 {
      Pow2Step(64);
      if 64 <= k {
        Pow2Mono(64, k);
      }
      RoundedIsLeast(n0 - 1, k);
      if k < 63 {
        Pow2Mono(k + 1, 63);
      }
    }
  }

  lemma RoundedIsLeast(m: nat, k: nat)
    requires Pow2(k) <= m < Pow2(k + 1)
    ensures IsLeastPow2AtLeast(Pow2(k + 1), m + 1)
  {
    forall j: nat | Pow2(j) >= m + 1 ensures Pow2(k + 1) <= Pow2(j) {
      if j <= k {
        Pow2Mono(j, k);
      } else {
        Pow2Mono(k + 1, j);
      }
    }
  }
}
