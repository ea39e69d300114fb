/** Arithmetic modulo the Mersenne prime 2^61 - 1 on 64-bit words, and the 5-universal hash of 32-bit keys. */
module Hash61 {

  const W32: nat := 0x1_0000_0000
  const W61: nat := 0x2000_0000_0000_0000
  const W64: nat := 0x1_0000_0000_0000_0000
  const P: nat := 0x1FFF_FFFF_FFFF_FFFF

  function Low(x: nat): nat { x % W32 }
  function High(x: nat): nat { x / W32 }

  ghost predicate Cong(a: int, b: int) {
    a % P == b % P
  }

  /** Folding the bits above 61 onto the lower ones subtracts a multiple of the prime. */
  lemma FoldCong(u: int)
    ensures u % W61 + u / W61 == u - (u / W61) * P
    ensures Cong(u % W61 + u / W61, u)
  {
    CongShift(u, u / W61);
  }

  lemma CongShift(u: int, k: int)
    ensures Cong(u - k * P, u)
  {
  }

  lemma CongMulAdd(a: int, b: int, x: int, c: int)
    requires Cong(a, b)
    ensures Cong(a * x + c, b * x + c)
  {
    var k := a / P - b / P;
    assert a == b + k * P;
    assert a * x == b * x + (k * x) * P
        by { assert (b + k * P) * x == b * x + (k * P) * x && (k * P) * x == (k * x) * P; }
    CongShift(b * x + c, -(k * x));
  }

  // ------------------------------------------------ one multiply-add

  /** Combine the two partial products, then fold; every word operation wraps explicitly. */
  function AddWords(a0: nat, a1: nat, b: nat): nat {
    var c0 := (a0 + (a1 * W32) % W64) % W64;
    var c1 := (a0 / W32 + a1) % W64;
    (c0 % W61 + c1 / 0x2000_0000 + b) % W64
  }

  /** a * x + b modulo the prime on 64-bit words. */
  function MultAddPrime(x: nat, a: nat, b: nat): nat {
    AddWords((Low(a) * x) % W64, (High(a) * x) % W64, b)
  }

  lemma ProductBound(a: nat, x: nat, m: nat, n: nat)
    requires a <= m && x <= n
    ensures a * x <= m * n
  {
    assert a * x <= m * x;
    assert m * x <= m * n;
  }

  /** The word halves of the product. */
  lemma Halves(x: nat, a: nat)
    requires x < W32 && a < W64
    ensures a * x == (High(a) * x) * W32 + Low(a) * x
    ensures Low(a) * x < W64 && High(a) * x < W64 && Low(a) * x <= (W32 - 1) * (W32 - 1)
    ensures High(a) * x <= (W32 - 1) * (W32 - 1)
  {
    assert a == High(a) * W32 + Low(a);
    assert (High(a) * W32 + Low(a)) * x == (High(a) * W32) * x + Low(a) * x;
    assert (High(a) * W32) * x == (High(a) * x) * W32;
    ProductBound(Low(a), x, W32 - 1, W32 - 1);
    ProductBound(High(a), x, W32 - 1, W32 - 1);
  }

  lemma Mod61(x: int, k: int)
    ensures (x % W64) % W61 == x % W61 && (x - k * W64) % W61 == x % W61
  {
    assert W64 == 8 * W61;
    ModShift61(x % W64, 8 * (x / W64));
    ModShift61(x, -(8 * k));
    assert x == x % W64 + (8 * (x / W64)) * W61;
    assert x - k * W64 == x + (-(8 * k)) * W61;
  }

  /** A multiple of 2^61 does not change the lower 61 bits. */
  lemma ModShift61(x: int, k: int)
    ensures (x + k * W61) % W61 == x % W61
  {
    var r, n := x % W61, x / W61 + k;
    assert x + k * W61 == n * W61 + r;
    QuotientUnique(x + k * W61, n, r);
  }

  lemma QuotientUnique(x: int, n: int, r: int)
    requires x == n * W61 + r && 0 <= r < W61
    ensures x % W61 == r
  {
    assert x == (x / W61) * W61 + x % W61;
  }

  lemma ModMod(u: nat, v: nat)
    requires u < W64
    ensures ((u + (v * W32) % W64) % W64) % W61 == (v * W32 + u) % W61
  {
    var k := (v * W32) / W64;
    assert u + (v * W32) % W64 == (v * W32 + u) - k * W64;
    Mod61(v * W32 + u, k);
    Mod61(v * W32 + u - k * W64, 0);
  }

  lemma ShiftTwice(u: nat, v: nat)
    ensures (u / W32 + v) / 0x2000_0000 == (v * W32 + u) / W61
  {
  }

  /** Only the sum c0 can wrap: as an integer the result is the folded product plus b. */
  lemma MultAddExact(x: nat, a: nat, b: nat)
    requires x < W32 && a < W64 && b < P
    ensures Low(a) * x < W64 && High(a) * x < W64 && (Low(a) * x) / W32 + High(a) * x < W64
    ensures MultAddPrime(x, a, b) == (a * x) % W61 + (a * x) / W61 + b < W64
  {
    hide Low, High, AddWords;
    Halves(x, a);
    Combine(Low(a) * x, High(a) * x, b);
  }

  lemma Small(x: nat)
    requires x < W64
    ensures x % W64 == x
  {
  }

  lemma Combine(a0: nat, a1: nat, b: nat)
    requires a0 <= (W32 - 1) * (W32 - 1) && a1 <= (W32 - 1) * (W32 - 1) && b < P
    ensures a0 / W32 + a1 < W64 && a0 % W64 == a0 && a1 % W64 == a1
    ensures var u := a1 * W32 + a0; AddWords(a0, a1, b) == u % W61 + u / W61 + b < W64
  {
    ModMod(a0, a1);
    ShiftTwice(a0, a1);
    QuotientBound(a0, a1);
    Small(a0 / W32 + a1);
    var u := a1 * W32 + a0;
    Small(u % W61 + u / W61 + b);
  }

  lemma QuotientBound(a0: nat, a1: nat)
    requires a0 <= (W32 - 1) * (W32 - 1) && a1 <= (W32 - 1) * (W32 - 1)
    ensures a0 / W32 + a1 < W64 && (a1 * W32 + a0) / W61 < 0x8_0000_0000
  {
  }

  lemma MultAddCong(x: nat, a: nat, b: nat)
    requires x < W32 && a < 2 * W61 + W32 * 4 && b < P
    ensures MultAddPrime(x, a, b) < 2 * W61 + W32 * 4
    ensures Cong(MultAddPrime(x, a, b), a * x + b)
  {
    MultAddExact(x, a, b);
    FoldCong(a * x);
    CongMulAdd((a * x) % W61 + (a * x) / W61, a * x, 1, b);
    ProductBound(a, x, 2 * W61 + W32 * 4, W32);
  }

  /** The fold of a product is its remainder, or its remainder plus the prime when the fold carries. */
  lemma FoldValue(u: nat)
    requires u <= (2 * W61 + W32 * 4) * W32
    ensures u % W61 + u / W61 == u % P + (if u % W61 + u / W61 >= P then P else 0)
  {
    FoldCong(u);
  }

  /**
   * The result is below twice the prime, a remainder possibly plus the prime, except exactly when both the fold of the
   * product and the addition of b carry.
   */
  lemma MultAddExceeds(x: nat, a: nat, b: nat)
    requires x < W32 && a < 2 * W61 + W32 * 4 && b < P
    ensures var u := a * x;
            MultAddPrime(x, a, b) >= 2 * P <==> u % W61 + u / W61 >= P && u % P + b >= P
  {
    hide MultAddPrime;
    MultAddExact(x, a, b);
    ProductBound(a, x, 2 * W61 + W32 * 4, W32);
    FoldValue(a * x);
  }

  /** What a caller can check: a normalised multiplier with a product below 2^61, or an addend 2^32 below the prime. */
  lemma MultAddBelowTwicePrime(x: nat, a: nat, b: nat)
    requires x < W32 && a < P && b < P
    requires a * x < W61 || b + W32 <= P
    ensures MultAddPrime(x, a, b) < 2 * P
  {
    hide MultAddPrime;
    MultAddExact(x, a, b);
    ProductBound(a, x, P, W32);
  }

  /** Normalised operands that fail: 2^31 - 1 times 2^31 + 1, plus the largest remainder, gives twice the prime. */
  lemma MultAddReachesTwicePrime()
    ensures MultAddPrime(0x7FFF_FFFF, 0x8000_0001, P - 1) == 2 * P
  {
    MultAddExact(0x7FFF_FFFF, 0x8000_0001, P - 1);
  }

  // ------------------------------------------------ reduction

  /** `(h & Prime61) + (h >> 61)`, then at most one subtraction. */
  function Reduce(h: nat): nat {
    var f := h % W61 + h / W61;
    if f >= P then f - P else f
  }

  /** The result is the exact remainder for every 64-bit word. */
  lemma ReduceExact(h: nat)
    requires h < W64
    ensures Reduce(h) == h % P && h % W61 + h / W61 < W64
  {
    FoldCong(h);
  }

  // ------------------------------------------------ polynomials

  ghost function Pow(x: int, n: nat): int {
    if n == 0 then 1 else x * Pow(x, n - 1)
  }

  /** Sum of c[i] * x^(n-1-i) over i < n: the first coefficient belongs to the highest power. */
  ghost function Poly(c: seq<nat>, x: int, n: nat): int
    requires n <= |c|
  {
    PolyFrom(c, x, n, 0)
  }

  ghost function PolyFrom(c: seq<nat>, x: int, n: nat, i: nat): int
    requires i <= n <= |c|
    decreases n - i
  {
    if i == n then 0 else c[i] * Pow(x, n - 1 - i) + PolyFrom(c, x, n, i + 1)
  }

  lemma {:induction false} HornerFrom(c: seq<nat>, x: int, n: nat, i: nat)
    requires i <= n < |c|
    ensures PolyFrom(c, x, n + 1, i) == PolyFrom(c, x, n, i) * x + c[n]
    decreases n - i
  {
    if i == n {
      assert PolyFrom(c, x, n + 1, n) == c[n] * Pow(x, 0) + PolyFrom(c, x, n + 1, n + 1);
    } else {
      HornerFrom(c, x, n, i + 1);
      var t := Pow(x, n - 1 - i);
      var rest := PolyFrom(c, x, n, i + 1);
      assert Pow(x, n - i) == x * t;
      assert c[i] * (x * t) == (c[i] * t) * x;
      assert (c[i] * t) * x + rest * x == (c[i] * t + rest) * x;
    }
  }

  lemma Horner(c: seq<nat>, x: int, n: nat)
    requires n < |c|
    ensures Poly(c, x, n + 1) == Poly(c, x, n) * x + c[n]
  {
    HornerFrom(c, x, n, 0);
  }

  /** The hash is the degree-4 polynomial of the key with the given coefficients, reduced modulo the prime. */
  method Hash61bit5univ(x: nat, index: seq<nat>) returns (h: nat)
    requires x < W32 && |index| == 5 && forall i :: 0 <= i < 5 ==> index[i] < P
    ensures h == Poly(index, x, 5) % P
    ensures Poly(index, x, 5)
        == index[0] * Pow(x, 4) + index[1] * Pow(x, 3) + index[2] * Pow(x, 2) + index[3] * x + index[4]
  {
    hide MultAddPrime, Poly, Reduce;
    FirstTerm(index, x);
    h := index[0];
    var i := 1;
    while i < 5
      invariant 1 <= i <= 5
      invariant h < 2 * W61 + W32 * 4 && Cong(h, Poly(index, x, i))
    {
      MultAddCong(x, h, index[i]);
      Horner(index, x, i);
      CongMulAdd(h, Poly(index, x, i), x, index[i]);
      h := MultAddPrime(x, h, index[i]);
      i := i + 1;
    }
    ReduceExact(h);
    FiveTerms(index, x);
    h := Reduce(h);
  }

  lemma FirstTerm(c: seq<nat>, x: int)
    requires |c| >= 1
    ensures Poly(c, x, 1) == c[0]
  {
    assert PolyFrom(c, x, 1, 0) == c[0] * Pow(x, 0) + PolyFrom(c, x, 1, 1);
  }

  lemma FiveTerms(c: seq<nat>, x: int)
    requires |c| == 5
    ensures Poly(c, x, 5) == c[0] * Pow(x, 4) + c[1] * Pow(x, 3) + c[2] * Pow(x, 2) + c[3] * x + c[4]
  {
    assert Pow(x, 1) == x * Pow(x, 0) == x;
    assert Pow(x, 0) == 1;
    assert PolyFrom(c, x, 5, 4) == c[4] * Pow(x, 0) + PolyFrom(c, x, 5, 5);
    assert PolyFrom(c, x, 5, 3) == c[3] * Pow(x, 1) + PolyFrom(c, x, 5, 4);
    assert PolyFrom(c, x, 5, 2) == c[2] * Pow(x, 2) + PolyFrom(c, x, 5, 3);
    assert PolyFrom(c, x, 5, 1) == c[1] * Pow(x, 3) + PolyFrom(c, x, 5, 2);
  }

  /** Normalised coefficients are the exact remainders of the random words. */
  method InitHash61bit5univ(random: seq<nat>) returns (hid: seq<nat>)
    requires |random| == 5 && forall i :: 0 <= i < 5 ==> random[i] < W64
    ensures |hid| == 5 && forall i :: 0 <= i < 5 ==> hid[i] == random[i] % P
  {
    hide Reduce;
    hid := [];
    for i := 0 to 5
      invariant |hid| == i && forall k :: 0 <= k < i ==> hid[k] == random[k] % P
    {
      ReduceExact(random[i]);
      hid := hid + [Reduce(random[i])];
    }
  }
}
