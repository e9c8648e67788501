/** The generator of the table of powers of five for decimal-to-float conversion: the loops of
    `print_proper_powers` on unbounded integers, and what the entries are, for every exponent.

    The lemmas are stated for a significand of any width `w`; the generator uses 128 bits. */
module PowerTable {

  function Pow(b: nat, n: nat): nat {
    if n == 0 then 1 else b * Pow(b, n - 1)
  }

  // ------------------------------------------------------------------ arithmetic

  lemma MulLe(a: nat, b: nat, c: nat)
    requires a <= b
    ensures a * c <= b * c
  {
  }

  lemma MulLt(a: nat, b: nat, c: nat)
    requires a < b && c > 0
    ensures a * c < b * c
  {
  }

  lemma MulBack(a: nat, b: nat, c: nat)
    requires a * c < b * c
    ensures a < b
  {
    if b <= a { MulLe(b, a, c); }
  }

  lemma MulCancel(a: nat, b: nat, c: nat)
    requires a * c == b * c && c > 0
    ensures a == b
  {
    if a < b { MulLt(a, b, c); }
    if b < a { MulLt(b, a, c); }
  }

  lemma DivBounds(m: nat, p: nat)
    requires p > 0
    ensures (m / p) * p <= m < (m / p + 1) * p
  {
    assert m == p * (m / p) + m % p;
  }

  lemma DivLower(m: nat, p: nat, x: nat)
    requires p > 0 && x * p <= m
    ensures x <= m / p
  {
    DivBounds(m, p);
    if m / p + 1 <= x { MulLe(m / p + 1, x, p); }
  }

  lemma DivUpper(m: nat, p: nat, x: nat)
    requires p > 0 && m < x * p
    ensures m / p < x
  {
    DivBounds(m, p);
    if x <= m / p { MulLe(x, m / p, p); }
  }

  lemma DivIs(m: nat, p: nat, x: nat)
    requires p > 0 && x * p <= m < (x + 1) * p
    ensures m / p == x
  {
    DivLower(m, p, x);
    DivUpper(m, p, x + 1);
  }

  lemma {:induction false} PowAdd(b: nat, m: nat, n: nat)
    ensures Pow(b, m + n) == Pow(b, m) * Pow(b, n)
    decreases n
  {
    if n > 0 {
      PowAdd(b, m, n - 1);
      var x, y := Pow(b, m), Pow(b, n - 1);
      assert b * (x * y) == x * (b * y);
    }
  }

  lemma {:induction false} PowPositive(b: nat, n: nat)
    requires b > 0
    ensures Pow(b, n) > 0
  {
    if n > 0 { PowPositive(b, n - 1); }
  }

  lemma {:induction false} PowMonotone(b: nat, m: nat, n: nat)
    requires b > 0 && m <= n
    ensures Pow(b, m) <= Pow(b, n)
    decreases n
  {
    if m < n {
      PowMonotone(b, m, n - 1);
      MulLe(1, b, Pow(b, n - 1));
    }
  }

  lemma {:induction false} Pow5Odd(n: nat)
    ensures Pow(5, n) % 2 == 1
    ensures n > 0 ==> Pow(5, n) >= 5
  {
    if n > 0 {
      Pow5Odd(n - 1);
      PowPositive(5, n - 1);
    }
  }

  lemma DivideTwice(a: nat, k: nat)
    ensures Pow(2, k) > 0 && Pow(2, k + 1) > 0
    ensures a / Pow(2, k) / 2 == a / Pow(2, k + 1)
  {
    PowPositive(2, k);
    HalfQuotient(a, Pow(2, k));
  }

  lemma HalfQuotient(a: nat, d: nat)
    requires d > 0
    ensures a / d / 2 == a / (2 * d)
  {
    var h := a / d;
    var q := h / 2;
    DivBounds(a, d);
    MulLe(2 * q, h, d);
    MulLe(h + 1, 2 * (q + 1), d);
    TwiceEither(q, d);
    TwiceEither(q + 1, d);
    DivIs(a, 2 * d, q);
  }

  lemma TwiceEither(q: nat, d: nat)
    ensures q * (2 * d) == (2 * q) * d
  {
  }

  lemma {:induction false} DivideMore(a: nat, j: nat, k: nat)
    requires j <= k
    ensures Pow(2, j) > 0 && Pow(2, k) > 0 && a / Pow(2, k) <= a / Pow(2, j)
    decreases k
  {
    PowPositive(2, j);
    PowPositive(2, k);
    if j < k {
      DivideMore(a, j, k - 1);
      DivideTwice(a, k - 1);
    }
  }

  lemma OddTimesOdd(c: nat, p: nat)
    requires p % 2 == 1 && c % 2 == 1
    ensures (c * p) % 2 == 1
  {
    var h, g := p / 2, c / 2;
    assert c * p == (2 * g + 1) * (2 * h + 1) == 2 * (2 * g * h + g + h) + 1;
  }

  lemma TwiceTimes(h: nat, p: nat)
    ensures (2 * h) * p == 2 * (h * p)
  {
  }

  /** An odd number above one does not divide a power of two. */
  lemma {:induction false} OddNeverDivides(c: nat, p: nat, b: nat)
    requires p % 2 == 1 && p > 1
    ensures c * p != Pow(2, b)
    decreases b
  {
    var x := c * p;
    if c % 2 == 1 {
      OddTimesOdd(c, p);
      MulLe(1, c, p);
      assert x % 2 == 1 && x >= p;
    } else {
      TwiceTimes(c / 2, p);
      assert x % 2 == 0;
      if b > 0 { OddNeverDivides(c / 2, p, b - 1); }
    }
  }

  // ------------------------------------------------------------------ what the table promises

  /** `z` is the least exponent with `2^z >= p`. */
  ghost predicate LeastAbove(z: nat, p: nat) {
    p <= Pow(2, z) && (z > 0 ==> Pow(2, z - 1) < p)
  }

  function Up(x: int): nat { if x > 0 then x else 0 }

  /** `m * 2^e` and `5^q`, both multiplied by the powers that make them whole. */
  function Scaled(m: nat, e: int, q: int): nat { m * (Pow(2, Up(e)) * Pow(5, Up(-q))) }
  function Target(e: int, q: int): nat { Pow(5, Up(q)) * Pow(2, Up(-e)) }

  datatype Rounding = Exact | Down | Upward

  /** How the generator rounds at exponent `q`. */
  ghost function RoundingAt(w: nat, q: int): Rounding {
    if q >= 0 then (if Pow(5, q) < Pow(2, w) then Exact else Down)
    else if q >= -27 then Upward
    else Down
  }

  /** Entry `c` for exponent `q` at scale `2^e`: `5^q / 2^e` lies in `[2^(w-1), 2^w)`, and `c`
      is a `w`-bit number with its top bit set, less than one unit away from it. */
  ghost predicate IsEntry(w: nat, c: nat, e: int, q: int)
    requires w > 0
  {
    && Scaled(Pow(2, w - 1), e, q) <= Target(e, q) < Scaled(Pow(2, w), e, q)
    && Pow(2, w - 1) <= c < Pow(2, w)
    && match RoundingAt(w, q)
       case Exact => Scaled(c, e, q) == Target(e, q)
       case Down => Scaled(c, e, q) < Target(e, q) < Scaled(c + 1, e, q)
       case Upward => c > 0 && Scaled(c - 1, e, q) < Target(e, q) < Scaled(c, e, q)
  }

  lemma IsRow(w: nat, c: nat, e: int, q: int)
    requires w > 0 && IsEntry(w, c, e, q)
    ensures HasEntry(w, (c, q))
  {
    assert IsEntry(w, (c, q).0, e, (c, q).1);
  }

  /** A row of the table: a number that is the entry of its exponent, at some scale. */
  ghost predicate HasEntry(w: nat, row: (nat, int))
    requires w > 0
  {
    exists e :: IsEntry(w, row.0, e, row.1)
  }

  // ------------------------------------------------------------------ negative exponents

  lemma Between(a: nat, b: nat, h: nat, d: nat, p: nat, m: nat)
    requires a < p < b && h > 0 && d > 0 && m == b * h == a * d
    ensures h * p < m < d * p && h <= m / p < d
  {
    MulLt(p, b, h);
    MulLt(a, p, d);
    DivLower(m, p, h);
    DivUpper(m, p, d);
  }

  /** `2^(z+w-1) / p` has exactly `w` bits. */
  lemma FloorRange(w: nat, z: nat, p: nat)
    requires w > 0 && LeastAbove(z, p) && p % 2 == 1 && p > 1
    ensures z > 0 && Pow(2, z - 1) < p < Pow(2, z)
    ensures Pow(2, z + w - 1) == Pow(2, z - 1) * Pow(2, w)
    ensures Pow(2, w - 1) * p < Pow(2, z + w - 1) < Pow(2, w) * p
    ensures Pow(2, w - 1) <= Pow(2, z + w - 1) / p < Pow(2, w)
  {
    OddNeverDivides(1, p, z);
    PowAdd(2, z, w - 1);
    PowAdd(2, z - 1, w);
    PowPositive(2, w - 1);
    PowPositive(2, w);
    Between(Pow(2, z - 1), Pow(2, z), Pow(2, w - 1), Pow(2, w), p, Pow(2, z + w - 1));
  }

  lemma CeilingBelow(a: nat, d: nat, p: nat)
    requires 1 <= a < p && 2 * a <= d && d >= 4
    ensures (a * d) / p + 1 < d
  {
    MulLe(a + 1, p, d - 1);
    assert (a + 1) * (d - 1) == a * d + (d - 1 - a) && p * (d - 1) == (d - 1) * p;
    DivUpper(a * d, p, d - 1);
  }

  /** Rounding up does not overflow as long as the power is narrower than the significand. */
  lemma CeilingFits(w: nat, z: nat, p: nat)
    requires w > 1 && LeastAbove(z, p) && p % 2 == 1 && p > 1 && z <= w
    ensures Pow(2, z + w - 1) / p + 1 < Pow(2, w)
  {
    FloorRange(w, z, p);
    PowMonotone(2, z - 1, w - 1);
    PowPositive(2, z - 1);
    PowMonotone(2, 1, w - 1);
    assert Pow(2, 1) == 2 && Pow(2, w) == 2 * Pow(2, w - 1);
    CeilingBelow(Pow(2, z - 1), Pow(2, w), p);
  }

  lemma {:induction false} Pow5Below(k: nat)
    ensures Pow(5, 3 * k) <= Pow(2, 7 * k)
  {
    if k > 0 {
      Pow5Below(k - 1);
      var x, y := Pow(5, 3 * (k - 1)), Pow(2, 7 * (k - 1));
      assert Pow(5, 3 * k) == 5 * Pow(5, 3 * k - 1) && Pow(5, 3 * k - 1) == 5 * Pow(5, 3 * k - 2);
      assert Pow(5, 3 * k - 2) == 5 * x;
      assert Pow(2, 7 * k) == 2 * Pow(2, 7 * k - 1) && Pow(2, 7 * k - 1) == 2 * Pow(2, 7 * k - 2);
      assert Pow(2, 7 * k - 2) == 2 * Pow(2, 7 * k - 3) && Pow(2, 7 * k - 3) == 2 * Pow(2, 7 * k - 4);
      assert Pow(2, 7 * k - 4) == 2 * Pow(2, 7 * k - 5) && Pow(2, 7 * k - 5) == 2 * Pow(2, 7 * k - 6);
      assert Pow(2, 7 * k - 6) == 2 * y;
    }
  }

  /** Up to the exponent where the generator changes method, `5^n` has at most 63 bits. */
  lemma NarrowPowers(z: nat, n: nat)
    requires n <= 27 && LeastAbove(z, Pow(5, n))
    ensures z <= 63
  {
    PowMonotone(5, n, 3 * 9);
    Pow5Below(9);
    if z > 63 { PowMonotone(2, 7 * 9, z - 1); }
  }

  /** The detour for `q < -27`: dividing at twice the precision, adding one and halving
      `z + 1` times is the same as dividing once, rounding down. */
  lemma DetourCancels(w: nat, z: nat, p: nat)
    requires w > 0 && 0 < p <= Pow(2, z)
    ensures Pow(2, z + 1) > 0
    ensures (Pow(2, 2 * z + w) / p + 1) / Pow(2, z + 1) == Pow(2, z + w - 1) / p
  {
    PowAdd(2, z + 1, z + w - 1);
    PowPositive(2, z + 1);
    assert (z + 1) + (z + w - 1) == 2 * z + w && Pow(2, z + 1) == 2 * Pow(2, z);
    DetourQuotient(Pow(2, 2 * z + w), Pow(2, z + 1), Pow(2, z + w - 1), p);
  }

  lemma DetourQuotient(n: nat, d: nat, m: nat, p: nat)
    requires p > 0 && n == d * m && 2 * p <= d
    ensures (n / p + 1) / d == m / p
  {
    var t, c := m / p, n / p;
    DivBounds(m, p);
    DivBounds(n, p);
    DetourLower(d, m, p, t, c);
    DetourUpper(d, m, p, t, c);
    DivIs(c + 1, d, t);
  }

  lemma DetourLower(d: nat, m: nat, p: nat, t: nat, c: nat)
    requires p > 0 && t * p <= m && d * m < (c + 1) * p
    ensures t * d <= c
  {
    MulLe(t * p, m, d);
    assert (t * p) * d == (t * d) * p;
    if c + 1 <= t * d { MulLe(c + 1, t * d, p); }
  }

  lemma DetourUpper(d: nat, m: nat, p: nat, t: nat, c: nat)
    requires p > 0 && m < (t + 1) * p && c * p <= d * m && 2 * p <= d
    ensures c + 1 < (t + 1) * d
  {
    MulLe(m + 1, (t + 1) * p, d);
    assert (m + 1) * d == d * m + d;
    assert ((t + 1) * p) * d == ((t + 1) * d) * p;
    assert c * p + 2 * p == (c + 2) * p;
    if (t + 1) * d < c + 2 { MulLt((t + 1) * d, c + 2, p); }
  }

  /** Halving while at least `2^w` stops at the only quotient that has `w` bits. */
  lemma HalvingStops(w: nat, a: nat, k: nat, j: nat)
    requires w > 0 && Pow(2, k) > 0 && Pow(2, j) > 0
    requires Pow(2, w - 1) <= a / Pow(2, k) < Pow(2, w)
    requires a / Pow(2, j) < Pow(2, w)
    requires j > 0 ==> Pow(2, j - 1) > 0 && a / Pow(2, j - 1) >= Pow(2, w)
    ensures j == k
  {
    if j < k {
      DivideTwice(a, k - 1);
      DivideMore(a, j, k - 1);
    } else if j > k {
      DivideMore(a, k, j - 1);
    }
  }

  lemma NegativeForm(b: nat, q: int, c: nat)
    requires q < 0
    ensures Target(-(b as int), q) == Pow(2, b)
    ensures Scaled(c, -(b as int), q) == c * Pow(5, -q)
  {
    assert Up(-(b as int)) == 0 && Up(b) == b && Up(q) == 0;
  }

  lemma CeilingIsEntry(w: nat, z: nat, q: int, c: nat, e: int)
    requires w >= 63 && -27 <= q < 0 && LeastAbove(z, Pow(5, -q)) && Pow(5, -q) > 0
    requires c == Pow(2, z + w - 1) / Pow(5, -q) + 1 && e == -(z + w - 1 as int)
    ensures IsEntry(w, c, e, q)
  {
    var p, b := Pow(5, -q), z + w - 1;
    Pow5Odd(-q);
    NarrowPowers(z, -q);
    FloorRange(w, z, p);
    CeilingFits(w, z, p);
    DivBounds(Pow(2, b), p);
    OddNeverDivides(c - 1, p, b);
    NegativeForm(b, q, c - 1);
    NegativeForm(b, q, c);
    NegativeForm(b, q, Pow(2, w - 1));
    NegativeForm(b, q, Pow(2, w));
  }

  lemma FloorIsEntry(w: nat, z: nat, q: int, c: nat, e: int)
    requires w > 0 && q < -27 && LeastAbove(z, Pow(5, -q)) && Pow(5, -q) > 0
    requires c == Pow(2, z + w - 1) / Pow(5, -q) && e == -(z + w - 1 as int)
    ensures IsEntry(w, c, e, q)
  {
    var p, b := Pow(5, -q), z + w - 1;
    Pow5Odd(-q);
    FloorRange(w, z, p);
    DivBounds(Pow(2, b), p);
    OddNeverDivides(c, p, b);
    NegativeForm(b, q, c);
    NegativeForm(b, q, c + 1);
    NegativeForm(b, q, Pow(2, w - 1));
    NegativeForm(b, q, Pow(2, w));
  }

  // ------------------------------------------------------------------ non-negative exponents

  lemma PositiveForm(e: int, n: int, c: nat)
    requires n >= 0
    ensures Target(e, n) == if e <= 0 then Pow(5, n) * Pow(2, -e) else Pow(5, n)
    ensures Scaled(c, e, n) == if e <= 0 then c else c * Pow(2, e)
  {
    assert Up(-n) == 0;
  }

  /** A power that had to be doubled `k` times is exact. */
  lemma DoubledIsEntry(w: nat, n: int, k: int, c: nat)
    requires w > 0 && n >= 0 && k >= 0 && c == Pow(5, n) * Pow(2, k) && Pow(2, w - 1) <= c < Pow(2, w)
    ensures IsEntry(w, c, -k, n)
  {
    PowPositive(2, k);
    MulLe(1, Pow(2, k), Pow(5, n));
    assert Pow(2, k) * Pow(5, n) == c;
    assert RoundingAt(w, n) == Exact;
    PositiveForm(-k, n, c);
    PositiveForm(-k, n, Pow(2, w - 1));
    PositiveForm(-k, n, Pow(2, w));
  }

  /** A power that had to be halved `k` times is rounded down, strictly because it is odd. */
  lemma HalvedIsEntry(w: nat, n: int, k: int, c: nat)
    requires w > 0 && n >= 0 && k > 0 && Pow(2, k) > 0
    requires c == Pow(5, n) / Pow(2, k) && Pow(2, w - 1) <= c < Pow(2, w)
    ensures IsEntry(w, c, k, n)
  {
    var d := Pow(2, k);
    Pow5Odd(n);
    OddQuotient(Pow(5, n), Pow(2, k - 1), c, Pow(2, w - 1));
    PositiveForm(k, n, c);
    PositiveForm(k, n, c + 1);
    PositiveForm(k, n, Pow(2, w - 1));
    PositiveForm(k, n, Pow(2, w));
  }

  /** The quotient of an odd number by an even one, strictly between. */
  lemma OddQuotient(p: nat, half: nat, c: nat, low: nat)
    requires half > 0 && p % 2 == 1 && c == p / (2 * half) && low <= c < 2 * low
    ensures c * (2 * half) < p < (c + 1) * (2 * half)
    ensures low * (2 * half) <= p < (2 * low) * (2 * half) && 2 * low <= p
  {
    var d := 2 * half;
    DivBounds(p, d);
    TwiceEither(c, half);
    TwiceTimes(c, half);
    MulLe(low, c, d);
    MulLe(c + 1, 2 * low, d);
    MulLe(2, d, low);
    assert low * d == d * low;
  }

  // ------------------------------------------------------------------ the generator

  /** The entry for a negative exponent; the generator's width is 128. */
  method NegativeEntry(w: nat, q: int) returns (c: nat)
    requires w >= 63 && q < 0
    ensures HasEntry(w, (c, q))
  {
    var power5 := Pow(5, -q);
    var z := BitsAbove(power5);
    Pow5Odd(-q);
    ghost var e := -(z + w - 1 as int);
    if q >= -27 {
      var b := z + w - 1;
      c := Pow(2, b) / power5 + 1;
      CeilingIsEntry(w, z, q, c, e);
    } else {
      c := TruncatedDetour(w, z, power5);
      FloorIsEntry(w, z, q, c, e);
    }
    IsRow(w, c, e, q);
  }

  /** The loop that finds the least `z` with `2^z >= power5`. */
  method BitsAbove(power5: nat) returns (z: nat)
    ensures LeastAbove(z, power5)
  {
    z := 0;
    while Pow(2, z) < power5
      invariant z > 0 ==> Pow(2, z - 1) < power5
      invariant Pow(2, z) > z
      decreases if z < power5 then power5 - z else 0
    {
      z := z + 1;
    }
  }

  /** `j` halvings of `a`, each of a number that did not fit into `w` bits, have left `c`. */
  ghost predicate Halved(w: nat, a: nat, j: nat, c: nat) {
    && Pow(2, j) > 0 && c == a / Pow(2, j)
    && (j > 0 ==> Pow(2, j - 1) > 0 && a / Pow(2, j - 1) >= Pow(2, w))
  }

  lemma HalveAgain(w: nat, a: nat, j: nat, c: nat)
    requires Halved(w, a, j, c) && c >= Pow(2, w)
    ensures Halved(w, a, j + 1, c / 2) && c / 2 < c
  {
    DivideTwice(a, j);
    PowPositive(2, w);
  }

  /** The branch for small exponents: twice the precision, then halving until it fits. */
  method TruncatedDetour(w: nat, z: nat, power5: nat) returns (c: nat)
    requires w > 0 && LeastAbove(z, power5) && power5 % 2 == 1 && power5 > 1
    ensures c == Pow(2, z + w - 1) / power5
  {
    var b := 2 * z + w;
    c := Pow(2, b) / power5 + 1;
    ghost var a, j := c, 0;
    while c >= Pow(2, w)
      invariant Halved(w, a, j, c)
      decreases c
    {
      HalveAgain(w, a, j, c);
      c := c / 2;
      j := j + 1;
    }
    DetourCancels(w, z, power5);
    FloorRange(w, z, power5);
    HalvingStops(w, a, z + 1, j);
  }

  /** The entry for a non-negative exponent. */
  method PositiveEntry(w: nat, q: nat) returns (c: nat)
    requires w > 0
    ensures HasEntry(w, (c, q))
  {
    c := Pow(5, q);
    ghost var p, k := c, 0;
    PowPositive(5, q);
    while c < Pow(2, w - 1)
      invariant c == p * Pow(2, k) && c > 0
      invariant k > 0 ==> c < Pow(2, w)
      decreases Pow(2, w - 1) - c
    {
      assert 2 * (p * Pow(2, k)) == p * (2 * Pow(2, k));
      c := c * 2;
      k := k + 1;
    }
    ghost var whole, j := c, 0;
    while c >= Pow(2, w)
      invariant Pow(2, j) > 0 && c == whole / Pow(2, j) && c >= Pow(2, w - 1)
      invariant j > 0 ==> whole >= Pow(2, w)
      decreases c
    {
      DivideTwice(whole, j);
      PowPositive(2, w - 1);
      c := c / 2;
      j := j + 1;
    }
    ghost var e := if j == 0 then -(k as int) else j;
    if j == 0 {
      DoubledIsEntry(w, q, k, c);
    } else {
      HalvedIsEntry(w, q, j, c);
    }
    IsRow(w, c, e, q);
  }

  /** `c` written as two halves of `h` bits each. */
  ghost predicate HalvesOf(h: nat, c: nat, halves: (nat, nat)) {
    halves.0 < Pow(2, h) && halves.1 < Pow(2, h) && c == halves.0 * Pow(2, h) + halves.1
  }

  /** The table for exponents from `first` on: row `i` is the entry of `first + i`. */
  ghost predicate IsTable(h: nat, first: int, powers: seq<(nat, int)>)
    requires h > 0
  {
    forall i :: 0 <= i < |powers| ==> powers[i].1 == first + i && HasEntry(2 * h, powers[i])
  }

  ghost predicate AllHalves(h: nat, powers: seq<(nat, int)>, halves: seq<(nat, nat)>) {
    |halves| == |powers| && forall i :: 0 <= i < |powers| ==> HalvesOf(h, powers[i].0, halves[i])
  }

  lemma SplitFits(d: nat, c: nat)
    requires d > 0 && c < d * d
    ensures c / d < d && c % d < d && c == (c / d) * d + c % d
  {
    DivUpper(c, d, d);
    assert c == d * (c / d) + c % d;
  }

  /** `print_proper_powers`: the rows for the exponents from `minExp` (or 0) up to `maxExp` (or
      -1), in order.  The generator's `h` is 64. */
  method ProperPowers(h: nat, minExp: int, maxExp: int) returns (powers: seq<(nat, int)>)
    requires h >= 32
    ensures |powers| == Up(-minExp) + Up(maxExp + 1)
    ensures IsTable(h, if minExp < 0 then minExp else 0, powers)
  {
    powers := [];
    var first := if minExp < 0 then minExp else 0;
    var q := first;
    while q < 0
      invariant first <= q <= 0 && |powers| == q - first && IsTable(h, first, powers)
    {
      var c := NegativeEntry(2 * h, q);
      powers := powers + [(c, q)];
      q := q + 1;
    }
    while q < maxExp + 1
      invariant 0 <= q && |powers| == q - first && IsTable(h, first, powers) && (q == 0 || q <= maxExp + 1)
    {
      var c := PositiveEntry(2 * h, q);
      powers := powers + [(c, q)];
      q := q + 1;
    }
  }

  /** The printing loop: each entry as two halves, which fit. */
  method PrintedHalves(h: nat, first: int, powers: seq<(nat, int)>) returns (halves: seq<(nat, nat)>)
    requires h > 0 && IsTable(h, first, powers)
    ensures AllHalves(h, powers, halves)
  {
    halves := [];
    PowPositive(2, h);
    for i := 0 to |powers|
      invariant AllHalves(h, powers[..i], halves)
    {
      var c := powers[i].0;
      HalvesFit(h, powers[i]);
      halves := halves + [(c / Pow(2, h), c % Pow(2, h))];
    }
    assert powers[..|powers|] == powers;
  }

  lemma HalvesFit(h: nat, row: (nat, int))
    requires h > 0 && HasEntry(2 * h, row)
    ensures Pow(2, h) > 0 && HalvesOf(h, row.0, (row.0 / Pow(2, h), row.0 % Pow(2, h)))
  {
    PowPositive(2, h);
    PowAdd(2, h, h);
    SplitFits(Pow(2, h), row.0);
  }

  // ------------------------------------------------------------------ more about the entries

  /** `a / b` at least doubles: cross-multiplied comparison carries over. */
  lemma Doubled(t: nat, b: nat, b': nat, y: nat, a: nat, a': nat, f: nat)
    requires b > 0 && b' > 0 && 2 * (a * b') <= a' * b
    requires t * b < (2 * y) * (a * f)
    ensures t * b' < y * (a' * f)
  {
    MulLt(t * b, (2 * y) * (a * f), b');
    assert ((2 * y) * (a * f)) * b' == (2 * (a * b')) * (y * f);
    MulLe(2 * (a * b'), a' * b, y * f);
    assert (a' * b) * (y * f) == (y * (a' * f)) * b;
    assert (t * b) * b' == (t * b') * b;
    if t * b' >= y * (a' * f) { MulLe(y * (a' * f), t * b', b); }
  }

  lemma PowersDouble(e: int, e': int)
    requires e < e'
    ensures 2 * (Pow(2, Up(e)) * Pow(2, Up(-e'))) <= Pow(2, Up(e')) * Pow(2, Up(-e))
  {
    PowPositive(2, Up(e'));
    if e >= 0 {
      PowMonotone(2, e + 1, e');
    } else if e' >= 0 {
      PowMonotone(2, 1, -e);
      assert Pow(2, 1) == 2;
      MulLe(1, Pow(2, Up(e')), Pow(2, Up(-e)));
    } else {
      PowMonotone(2, -e' + 1, -e);
    }
  }

  lemma ScaleBelow(w: nat, q: int, e: int, e': int)
    requires w > 0 && e < e' && Target(e, q) < Scaled(Pow(2, w), e, q)
    ensures Target(e', q) < Scaled(Pow(2, w - 1), e', q)
  {
    PowersDouble(e, e');
    PowPositive(2, Up(-e));
    PowPositive(2, Up(-e'));
    Doubled(Pow(5, Up(q)), Pow(2, Up(-e)), Pow(2, Up(-e')), Pow(2, w - 1), Pow(2, Up(e)), Pow(2, Up(e')), Pow(5, Up(-q)));
  }

  /** An entry is determined by its exponent: only one power of two brings `5^q` to `w` bits,
      and at that scale only one number is the exact value, the floor or the ceiling. */
  lemma EntryUnique(w: nat, q: int, c: nat, e: int, c': nat, e': int)
    requires w > 0 && IsEntry(w, c, e, q) && IsEntry(w, c', e', q)
    ensures c == c' && e == e'
  {
    if e < e' { ScaleBelow(w, q, e, e'); }
    if e' < e { ScaleBelow(w, q, e', e); }
    NumberUnique(w, q, c, c', e);
  }

  lemma NumberUnique(w: nat, q: int, c: nat, c': nat, e: int)
    requires w > 0 && IsEntry(w, c, e, q) && IsEntry(w, c', e, q)
    ensures c == c'
  {
    var unit := Scaled(1, e, q);
    ScaledUnits(c, e, q);
    ScaledUnits(c', e, q);
    if RoundingAt(w, q) == Exact {
      MulCancel(c, c', unit);
    } else if RoundingAt(w, q) == Down {
      ScaledUnits(c + 1, e, q);
      ScaledUnits(c' + 1, e, q);
      MulBack(c, c' + 1, unit);
      MulBack(c', c + 1, unit);
    } else {
      ScaledUnits(c - 1, e, q);
      ScaledUnits(c' - 1, e, q);
      MulBack(c - 1, c', unit);
      MulBack(c' - 1, c, unit);
    }
  }

  /** Within half a unit of `5^q / 2^e`, as the generator's header says of all entries. */
  ghost predicate WithinHalf(c: nat, e: int, q: int) {
    2 * Scaled(c, e, q) <= 2 * Target(e, q) + Scaled(1, e, q)
    && 2 * Target(e, q) <= 2 * Scaled(c, e, q) + Scaled(1, e, q)
  }

  /** At its scale, an entry is so exactly when the remainder of the division falls on the side
      to which the generator rounds at that exponent. */
  lemma WithinHalfAtScale(w: nat, c: nat, e: int, q: int)
    requires w > 0 && IsEntry(w, c, e, q)
    ensures Scaled(1, e, q) > 0
    ensures var rem := Target(e, q) % Scaled(1, e, q);
            WithinHalf(c, e, q) <==>
            match RoundingAt(w, q)
            case Exact => true
            case Down => 2 * rem <= Scaled(1, e, q)
            case Upward => 2 * rem >= Scaled(1, e, q)
  {
    var unit, m := Scaled(1, e, q), Target(e, q);
    ScaledUnits(c, e, q);
    if RoundingAt(w, q) == Down {
      ScaledUnits(c + 1, e, q);
      RemainderIs(m, unit, c);
    } else if RoundingAt(w, q) == Upward {
      ScaledUnits(c - 1, e, q);
      RemainderIs(m, unit, c - 1);
      assert (c - 1 + 1) * unit == (c - 1) * unit + unit;
    }
  }

  /** The least `z` with `2^z >= p`. */
  function Bits(p: nat): nat {
    if p <= 1 then 0 else 1 + Bits((p + 1) / 2)
  }

  lemma {:induction false} BitsLeast(p: nat)
    ensures LeastAbove(Bits(p), p)
    decreases p
  {
    if p > 1 { BitsLeast((p + 1) / 2); }
  }

  /** The exponents at which the generator's entry is within half a unit.  Below zero, the
      division of a power of two by `5^-q` must leave its remainder on the side to which the
      generator rounds.  From zero on, the bits of `5^q` that are cut off must make up no more
      than half a unit. */
  ghost predicate HalfUnitAt(w: nat, q: int)
    requires w > 0
  {
    PowPositive(5, Up(-q));
    if q < 0 then
      var p := Pow(5, -q);
      var rem := Pow(2, Bits(p) + w - 1) % p;
      if q >= -27 then p <= 2 * rem else 2 * rem <= p
    else
      var cut := Bits(Pow(5, q)) - w;
      cut <= 0 || (PowPositive(2, cut); 2 * (Pow(5, q) % Pow(2, cut)) <= Pow(2, cut))
  }

  /** The scale of the entry of a negative exponent. */
  lemma NegativeScale(w: nat, q: int, e: int)
    requires w > 0 && q < 0 && Scaled(Pow(2, w - 1), e, q) <= Target(e, q) < Scaled(Pow(2, w), e, q)
    ensures e == -(Bits(Pow(5, -q)) + w - 1)
  {
    var z := Bits(Pow(5, -q));
    Pow5Odd(-q);
    BitsLeast(Pow(5, -q));
    FloorRange(w, z, Pow(5, -q));
    NegativeForm(z + w - 1, q, Pow(2, w - 1));
    NegativeForm(z + w - 1, q, Pow(2, w));
    var e0 := -(z + w - 1);
    if e < e0 { ScaleBelow(w, q, e, e0); }
    if e > e0 { ScaleBelow(w, q, e0, e); }
  }

  /** The scale of the entry of a power that is wider than `w` bits: the number of bits cut off. */
  lemma PositiveScale(w: nat, n: int, e: int)
    requires w > 0 && n >= 0 && Pow(5, n) >= Pow(2, w)
    requires Scaled(Pow(2, w - 1), e, n) <= Target(e, n) < Scaled(Pow(2, w), e, n)
    ensures e == Bits(Pow(5, n)) - w > 0
  {
    var z := Bits(Pow(5, n));
    Pow5Odd(n);
    BitsLeast(Pow(5, n));
    PowPositive(2, w - 1);
    if n > 0 { OddNeverDivides(1, Pow(5, n), z); }
    if z <= w { PowMonotone(2, z, w); }
    var k := z - w;
    PowAdd(2, w - 1, k);
    PowAdd(2, w, k);
    PositiveForm(k, n, Pow(2, w - 1));
    PositiveForm(k, n, Pow(2, w));
    if e < k { ScaleBelow(w, n, e, k); }
    if e > k { ScaleBelow(w, n, k, e); }
  }

  /** The header's claim holds exactly at those exponents. */
  lemma WithinHalfExactly(w: nat, c: nat, e: int, q: int)
    requires w > 0 && IsEntry(w, c, e, q)
    ensures WithinHalf(c, e, q) <==> HalfUnitAt(w, q)
  {
    WithinHalfAtScale(w, c, e, q);
    if q < 0 {
      NegativeSide(w, q, e);
    } else if Pow(5, q) >= Pow(2, w) {
      PositiveSide(w, q, e);
    } else {
      NarrowBits(w, Pow(5, q));
    }
  }

  lemma NegativeSide(w: nat, q: int, e: int)
    requires w > 0 && q < 0 && Scaled(Pow(2, w - 1), e, q) <= Target(e, q) < Scaled(Pow(2, w), e, q)
    ensures Scaled(1, e, q) > 0
    ensures var rem := Target(e, q) % Scaled(1, e, q);
            HalfUnitAt(w, q) <==> if q >= -27 then 2 * rem >= Scaled(1, e, q) else 2 * rem <= Scaled(1, e, q)
  {
    PowPositive(5, -q);
    NegativeScale(w, q, e);
    NegativeForm(Bits(Pow(5, -q)) + w - 1, q, 1);
  }

  lemma PositiveSide(w: nat, n: int, e: int)
    requires w > 0 && n >= 0 && Pow(5, n) >= Pow(2, w)
    requires Scaled(Pow(2, w - 1), e, n) <= Target(e, n) < Scaled(Pow(2, w), e, n)
    ensures Scaled(1, e, n) > 0
    ensures HalfUnitAt(w, n) <==> 2 * (Target(e, n) % Scaled(1, e, n)) <= Scaled(1, e, n)
  {
    PositiveScale(w, n, e);
    PowPositive(2, e);
    PositiveForm(e, n, 1);
  }

  lemma NarrowBits(w: nat, p: nat)
    requires p < Pow(2, w)
    ensures Bits(p) <= w
  {
    BitsLeast(p);
    if Bits(p) > w { PowMonotone(2, w, Bits(p) - 1); }
  }

  lemma ScaledUnits(c: nat, e: int, q: int)
    ensures Scaled(1, e, q) > 0 && Scaled(c, e, q) == c * Scaled(1, e, q)
  {
    PowPositive(2, Up(e));
    PowPositive(5, Up(-q));
    MulLe(1, Pow(2, Up(e)), Pow(5, Up(-q)));
  }

  lemma RemainderIs(m: nat, u: nat, c: nat)
    requires u > 0 && c * u <= m < (c + 1) * u
    ensures m % u == m - c * u
  {
    DivIs(m, u, c);
    assert m == u * (m / u) + m % u;
  }

  lemma ModShift(k: nat, s: nat)
    ensures (125 * k + s) % 125 == s % 125
  {
  }

  lemma SquareNat(x: nat, r: nat)
    requires x % 125 == r
    ensures (x * x) % 125 == (r * r) % 125 && (2 * (x * x)) % 125 == (2 * (r * r)) % 125
  {
    var h := x / 125;
    var k := x * h + r * h;
    assert x * x == x * (125 * h + r) == 125 * (x * h) + x * r;
    assert x * r == (125 * h + r) * r == 125 * (r * h) + r * r;
    ModShift(k, r * r);
    ModShift(2 * k, 2 * (r * r));
  }

  lemma SquareMod(k: nat, r: nat)
    requires Pow(2, k) % 125 == r
    ensures Pow(2, 2 * k) % 125 == (r * r) % 125
    ensures Pow(2, 2 * k + 1) % 125 == (2 * (r * r)) % 125
  {
    PowAdd(2, k, k);
    SquareNat(Pow(2, k), r);
  }

  /** `2^134` leaves remainder 59 when divided by `5^3`. */
  lemma Remainder59(k: nat)
    requires k == 33
    ensures Pow(2, 4 * k + 2) % 125 == 59
  {
    Remainder92(k);
    SquareMod(k, 92);
    SquareMod(2 * k + 1, 53);
    assert 2 * (2 * k + 1) == 4 * k + 2;
  }

  lemma Remainder92(k: nat)
    requires k == 33
    ensures Pow(2, k) % 125 == 92
  {
    var four: nat := 4;
    assert Pow(2, 2) == 4 && Pow(2, four) == 16;
    SquareMod(four, 16);
    SquareMod(2 * four, 6);
    SquareMod(4 * four, 36);
    assert 2 * (4 * four) + 1 == k;
  }

  /** The header's claim fails at exponent -3: rounding up leaves the entry more than half a
      unit away. */
  lemma NotWithinHalf(w: nat, c: nat, e: int)
    requires w == 128 && IsEntry(w, c, e, -3)
    ensures !WithinHalf(c, e, -3)
  {
    assert Pow(5, 3) == 125 && Bits(125) == 7;
    Remainder59(33);
    WithinHalfExactly(w, c, e, -3);
  }
}
