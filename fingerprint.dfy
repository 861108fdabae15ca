/**
 * Arithmetic behind the card-count containers: weighted sums of a count
 * vector (its total, its hard sum, its polynomial fingerprint) and the
 * modular facts that let the containers update the fingerprint one card
 * at a time instead of recomputing it.
 */
module Fingerprint {

  type Modulus = m: int | m > 1 witness 2

  // ---------------------------------------------------------------------
  // Weighted sums
  // ---------------------------------------------------------------------

  /** The sum of c[i] * w[i], accumulated front to back. */
  function Dot(c: seq<int>, w: seq<int>): int
    requires |c| == |w|
    decreases |c|
  {
    if |c| == 0 then 0 else Dot(c[..|c| - 1], w[..|w| - 1]) + c[|c| - 1] * w[|w| - 1]
  }

  function AddPointwise(a: seq<int>, b: seq<int>): seq<int>
    requires |a| == |b|
  {
    seq(|a|, i requires 0 <= i < |a| => a[i] + b[i])
  }

  function SubPointwise(a: seq<int>, b: seq<int>): seq<int>
    requires |a| == |b|
  {
    seq(|a|, i requires 0 <= i < |a| => a[i] - b[i])
  }

  /** One more step of the front-to-back accumulation. */
  lemma DotSnoc(c: seq<int>, w: seq<int>, k: int)
    requires |c| == |w| && 0 <= k < |c|
    ensures Dot(c[..k + 1], w[..k + 1]) == Dot(c[..k], w[..k]) + c[k] * w[k]
  {
    assert c[..k + 1][..k] == c[..k];
    assert w[..k + 1][..k] == w[..k];
  }

  /** The weighted sum of a ten-slot vector, written out. */
  lemma DotTen(c: seq<int>, w: seq<int>)
    requires |c| == |w| == 10
    ensures Dot(c, w) == c[0] * w[0] + c[1] * w[1] + c[2] * w[2] + c[3] * w[3] + c[4] * w[4]
                       + c[5] * w[5] + c[6] * w[6] + c[7] * w[7] + c[8] * w[8] + c[9] * w[9]
  {
    assert c[..0] == [] && w[..0] == [];
    DotSnoc(c, w, 0); DotSnoc(c, w, 1); DotSnoc(c, w, 2); DotSnoc(c, w, 3); DotSnoc(c, w, 4);
    DotSnoc(c, w, 5); DotSnoc(c, w, 6); DotSnoc(c, w, 7); DotSnoc(c, w, 8); DotSnoc(c, w, 9);
    assert c[..10] == c && w[..10] == w;
  }

  /** Changing one count by d changes the weighted sum by d times its weight. */
  lemma {:induction false} DotUpdate(c: seq<int>, w: seq<int>, k: int, d: int)
    requires |c| == |w| && 0 <= k < |c|
    ensures Dot(c[k := c[k] + d], w) == Dot(c, w) + d * w[k]
    decreases |c|
  {
    var n := |c|;
    var c' := c[k := c[k] + d];
    if k == n - 1 {
      assert c'[..n - 1] == c[..n - 1];
    } else {
      DotUpdate(c[..n - 1], w[..n - 1], k, d);
      assert c'[..n - 1] == c[..n - 1][k := c[k] + d];
    }
  }

  /** The weighted sum is additive in the counts. */
  lemma {:induction false} DotAdd(a: seq<int>, b: seq<int>, w: seq<int>)
    requires |a| == |b| == |w|
    ensures Dot(AddPointwise(a, b), w) == Dot(a, w) + Dot(b, w)
    decreases |a|
  {
    var n := |a|;
    if n > 0 {
      assert AddPointwise(a, b)[..n - 1] == AddPointwise(a[..n - 1], b[..n - 1]);
      DotAdd(a[..n - 1], b[..n - 1], w[..n - 1]);
    }
  }

  /** The weighted sum is subtractive in the counts. */
  lemma {:induction false} DotSub(a: seq<int>, b: seq<int>, w: seq<int>)
    requires |a| == |b| == |w|
    ensures Dot(SubPointwise(a, b), w) == Dot(a, w) - Dot(b, w)
    decreases |a|
  {
    var n := |a|;
    if n > 0 {
      assert SubPointwise(a, b)[..n - 1] == SubPointwise(a[..n - 1], b[..n - 1]);
      DotSub(a[..n - 1], b[..n - 1], w[..n - 1]);
    }
  }

  /** A weighted sum of non-negative counts with weights in [0, bound) stays
      below (sum of counts) * bound; used for the no-overflow arguments. */
  lemma {:induction false} DotBound(c: seq<int>, w: seq<int>, cmax: int, wmax: int)
    requires |c| == |w|
    requires forall i :: 0 <= i < |c| ==> 0 <= c[i] <= cmax
    requires forall i :: 0 <= i < |w| ==> 0 <= w[i] <= wmax
    ensures 0 <= Dot(c, w) <= |c| * cmax * wmax
    decreases |c|
  {
    var n := |c|;
    if n > 0 {
      DotBound(c[..n - 1], w[..n - 1], cmax, wmax);
      MulBound(c[n - 1], w[n - 1], cmax, wmax);
      assert |c| * cmax * wmax == (n - 1) * cmax * wmax + cmax * wmax;
    } else {
      assert cmax >= 0 && wmax >= 0 ==> |c| * cmax * wmax == 0;
    }
  }

  lemma MulBound(x: int, y: int, xmax: int, ymax: int)
    requires 0 <= x <= xmax && 0 <= y <= ymax
    ensures 0 <= x * y <= xmax * ymax
  {
    assert x * y <= xmax * y;
    assert xmax * y <= xmax * ymax;
  }

  // ---------------------------------------------------------------------
  // Euclidean remainder facts
  // ---------------------------------------------------------------------

  lemma ModUnique(x: int, q: int, r: int, m: int)
    requires m > 0 && 0 <= r < m && x == q * m + r
    ensures x % m == r && x / m == q
  {
    var q0, r0 := x / m, x % m;
    var d := q - q0;
    assert d * m == r0 - r by {
      assert q * m - q0 * m == (q - q0) * m;
    }
    if d >= 1 {
      MulAtLeast(d, m);
    } else if d <= -1 {
      MulAtLeast(-d, m);
    }
  }

  lemma MulAtLeast(a: int, m: int)
    requires a >= 1 && m > 0
    ensures a * m >= m
  {
    assert a * m == (a - 1) * m + m;
    assert (a - 1) * m >= 0;
  }

  lemma ModAddMultiple(a: int, k: int, m: int)
    requires m > 0
    ensures (a + k * m) % m == a % m
  {
    ModUnique(a + k * m, a / m + k, a % m, m);
  }

  lemma ModAdd(a: int, b: int, m: int)
    requires m > 0
    ensures (a % m + b) % m == (a + b) % m
  {
    var s := a % m + b;
    ModUnique(a + b, a / m + s / m, s % m, m);
  }

  lemma ModMul(a: int, b: int, m: int)
    requires m > 0
    ensures (a % m * b) % m == (a * b) % m
  {
    var s := a % m * b;
    assert a * b == (a / m * b) * m + s;
    ModUnique(a * b, a / m * b + s / m, s % m, m);
  }

  lemma ModCongruentAdd(x: int, y: int, z: int, m: int)
    requires m > 0 && x % m == y % m
    ensures (x + z) % m == (y + z) % m
  {
    ModAdd(x, z, m);
    ModAdd(y, z, m);
  }

  lemma ModCongruentMul(x: int, y: int, k: int, m: int)
    requires m > 0 && x % m == y % m
    ensures (k * x) % m == (k * y) % m
  {
    ModMul(x, k, m);
    ModMul(y, k, m);
  }

  // ---------------------------------------------------------------------
  // Powers of the base and the fingerprint
  // ---------------------------------------------------------------------

  /** The table of powers of the base, each reduced modulo m (entry 0 is 1). */
  function PowMod(b: int, m: Modulus, i: nat): int
  {
    if i == 0 then 1 else PowMod(b, m, i - 1) * b % m
  }

  function PowTable(b: int, m: Modulus, n: nat): seq<int>
  {
    seq(n, i requires 0 <= i < n => PowMod(b, m, i))
  }

  /** The fingerprint: sum of c[i] * base^i, reduced modulo m. */
  function Hash(b: int, m: Modulus, c: seq<int>): int
  {
    Dot(c, PowTable(b, m, |c|)) % m
  }

  /** The same fingerprint evaluated by Horner's rule from the last slot down. */
  function Horner(b: int, m: Modulus, c: seq<int>): int
  {
    if |c| == 0 then 0 else (Horner(b, m, c[1..]) * b + c[0]) % m
  }

  function Pow(b: int, i: nat): int
  {
    if i == 0 then 1 else Pow(b, i - 1) * b
  }

  /** The exact (unreduced) polynomial, evaluated by Horner's rule. */
  function Poly(b: int, c: seq<int>): int
  {
    if |c| == 0 then 0 else c[0] + b * Poly(b, c[1..])
  }

  lemma PowTablePrefix(b: int, m: Modulus, n: nat)
    requires n > 0
    ensures PowTable(b, m, n)[..n - 1] == PowTable(b, m, n - 1)
  {
  }

  lemma {:induction false} PowModIsPow(b: int, m: Modulus, i: nat)
    ensures PowMod(b, m, i) % m == Pow(b, i) % m
  {
    if i > 0 {
      PowModIsPow(b, m, i - 1);
      PowModStep(PowMod(b, m, i - 1), Pow(b, i - 1), b, m, PowMod(b, m, i), Pow(b, i));
    }
  }

  /** One step of the powers: congruent factors times b stay congruent,
      and reducing once more changes nothing. */
  lemma PowModStep(p: int, q: int, b: int, m: Modulus, pm: int, pw: int)
    requires p % m == q % m && pm == p * b % m && pw == q * b
    ensures pm % m == pw % m
  {
    ModMul(p, b, m);
    ModMul(q, b, m);
    var x := p * b;
    ModUnique(x % m, 0, x % m, m);
  }

  lemma {:induction false} PolyPrefix(b: int, c: seq<int>)
    requires |c| > 0
    ensures Poly(b, c) == Poly(b, c[..|c| - 1]) + c[|c| - 1] * Pow(b, |c| - 1)
    decreases |c|
  {
    var n := |c|;
    if n > 1 {
      PolyPrefix(b, c[1..]);
      assert c[1..][..n - 2] == c[..n - 1][1..];
      assert c[1..][n - 2] == c[n - 1];
      assert Pow(b, n - 1) == Pow(b, n - 2) * b;
    } else {
      assert c[..0] == [];
    }
  }

  lemma {:induction false} HornerIsPoly(b: int, m: Modulus, c: seq<int>)
    ensures Horner(b, m, c) == Poly(b, c) % m
    decreases |c|
  {
    if |c| > 0 {
      HornerIsPoly(b, m, c[1..]);
      var p := Poly(b, c[1..]);
      ModMul(p, b, m);
      ModAdd(p % m * b, c[0], m);
      ModAdd(p * b, c[0], m);
      ModCongruentAdd(p % m * b, p * b, c[0], m);
    }
  }

  lemma {:induction false} DotPowIsPoly(b: int, m: Modulus, c: seq<int>)
    ensures Dot(c, PowTable(b, m, |c|)) % m == Poly(b, c) % m
    decreases |c|
  {
    var n := |c|;
    if n > 0 {
      var t := PowTable(b, m, n);
      PowTablePrefix(b, m, n);
      DotPowIsPoly(b, m, c[..n - 1]);
      PolyPrefix(b, c);
      var x := Dot(c[..n - 1], t[..n - 1]);
      var y := Poly(b, c[..n - 1]);
      PowModIsPow(b, m, n - 1);
      ModCongruentMul(PowMod(b, m, n - 1), Pow(b, n - 1), c[n - 1], m);
      var u := c[n - 1] * PowMod(b, m, n - 1);
      var v := c[n - 1] * Pow(b, n - 1);
      ModCongruentAdd(x, y, u, m);
      ModCongruentAdd(u, v, y, m);
    }
  }

  /** The fingerprint kept by the containers equals Horner evaluation of the
      counts from the highest slot down. */
  lemma HornerIsHash(b: int, m: Modulus, c: seq<int>)
    ensures Horner(b, m, c) == Hash(b, m, c)
  {
    HornerIsPoly(b, m, c);
    DotPowIsPoly(b, m, c);
  }

  /** Adding one card of slot k moves the reduced sum by that slot's weight. */
  lemma ModDotIncrement(c: seq<int>, w: seq<int>, m: Modulus, k: int)
    requires |c| == |w| && 0 <= k < |c|
    ensures Dot(c[k := c[k] + 1], w) % m == (Dot(c, w) % m + w[k]) % m
  {
    DotUpdate(c, w, k, 1);
    ModAdd(Dot(c, w), w[k], m);
  }

  /** Removing one card of slot k moves it back, written with the added
      modulus exactly as the unsigned arithmetic does. */
  lemma ModDotDecrement(c: seq<int>, w: seq<int>, m: Modulus, k: int)
    requires |c| == |w| && 0 <= k < |c|
    ensures Dot(c[k := c[k] - 1], w) % m == (Dot(c, w) % m + m - w[k]) % m
  {
    DotUpdate(c, w, k, -1);
    var d := Dot(c, w);
    ModAdd(d, m - w[k], m);
    ModAddMultiple(d - w[k], 1, m);
  }

  /** The reduced sum of a pointwise sum is the sum of the reduced sums. */
  lemma ModDotAdd(x: seq<int>, y: seq<int>, w: seq<int>, m: Modulus)
    requires |x| == |y| == |w|
    ensures Dot(AddPointwise(x, y), w) % m == (Dot(x, w) % m + Dot(y, w) % m) % m
  {
    DotAdd(x, y, w);
    ModSum(Dot(x, w), Dot(y, w), Dot(AddPointwise(x, y), w), m);
  }

  lemma ModSum(dx: int, dy: int, d: int, m: int)
    requires m > 0 && d == dx + dy
    ensures d % m == (dx % m + dy % m) % m
  {
    var ry := dy % m;
    ModAdd(dx, ry, m);
    ModAdd(dy, dx, m);
    assert (dx % m + ry) % m == (dx + ry) % m;
    assert (ry + dx) % m == (dy + dx) % m;
  }

  /** The reduced sum of a pointwise difference, with the added modulus. */
  lemma ModDotSub(x: seq<int>, y: seq<int>, w: seq<int>, m: Modulus)
    requires |x| == |y| == |w|
    ensures Dot(SubPointwise(x, y), w) % m == (Dot(x, w) % m + m - Dot(y, w) % m) % m
  {
    DotSub(x, y, w);
    ModDifference(Dot(x, w), Dot(y, w), Dot(SubPointwise(x, y), w), m);
  }

  lemma ModDifference(dx: int, dy: int, d: int, m: int)
    requires m > 0 && d == dx - dy
    ensures d % m == (dx % m + m - dy % m) % m
  {
    var ry, qy := dy % m, dy / m;
    assert dy == qy * m + ry;
    ModAdd(dx, m - ry, m);
    assert dx + (m - ry) == d + (1 + qy) * m;
    ModAddMultiple(d, 1 + qy, m);
  }

  /** When a slot's weight is not a multiple of m, adding a card of that slot
      always changes the reduced sum. */
  lemma IncrementChangesModDot(c: seq<int>, w: seq<int>, m: Modulus, k: int)
    requires |c| == |w| && 0 <= k < |c| && 0 < w[k] < m
    ensures Dot(c[k := c[k] + 1], w) % m != Dot(c, w) % m
  {
    ModDotIncrement(c, w, m, k);
    var h := Dot(c, w) % m;
    if h + w[k] < m {
      ModUnique(h + w[k], 0, h + w[k], m);
    } else {
      ModUnique(h + w[k], 1, h + w[k] - m, m);
    }
  }

  /** Fills the table of powers of the base, front to back. */
  method PowersOfBase(b: int, m: Modulus, n: nat) returns (a: array<int>)
    requires n >= 1
    ensures a.Length == n
    ensures forall j :: 0 <= j < n ==> a[j] == PowMod(b, m, j)
  {
    a := new int[n];
    a[0] := 1;
    var i := 1;
    while i < n
      invariant 1 <= i <= n
      invariant forall j :: 0 <= j < i ==> a[j] == PowMod(b, m, j)
    {
      a[i] := a[i - 1] * b % m;
      i := i + 1;
    }
  }
}
