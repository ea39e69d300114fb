/** Hashing of strings of 32-bit words and of bytes: pairwise multiplication inside chunks, a polynomial across them. */
module StringHash {
  import opened Hash61

  /** Parameters: 16 random words for a chunk, the base of the polynomial, and the length multiplier. */
  datatype Params = Params(compr: seq<nat>, base: nat, factor: nat)

  ghost predicate ParamsOk(p: Params) {
    |p.compr| == 16 && (forall i :: 0 <= i < 16 ==> p.compr[i] < W64) && p.base <= P && p.factor < W64
  }

  /** Bitwise exclusive or. */
  function Xor(a: nat, b: nat): nat {
    if a == 0 && b == 0 then 0 else (a % 2 + b % 2) % 2 + 2 * Xor(a / 2, b / 2)
  }

  lemma {:induction false} XorZero(b: nat)
    ensures Xor(0, b) == b
  {
    if b > 0 { XorZero(b / 2); }
  }

  function Xor64(a: nat, b: nat): (r: nat)
    ensures r < W64
  {
    Xor(a, b) % W64
  }

  /** One pair of words against two hash words. */
  function Pair(x0: nat, x1: nat, h0: nat, h1: nat): (y: nat)
    ensures y < W64
  {
    (((x0 + h1) % W64) * ((x1 + h0) % W64)) % W64
  }

  /** The pairs of w from position j on, accumulated onto c. */
  function Pairs(w: seq<nat>, h: seq<nat>, j: nat, c: nat): (r: nat)
    requires |w| <= |h| && c < W64
    ensures r < W64
    decreases |w| - j
  {
    if j + 1 < |w| then Pairs(w, h, j + 2, Xor64(c, Pair(w[j], w[j + 1], h[j], h[j + 1]))) else c
  }

  /** Hash of at most 16 words; an odd first word is multiplied alone. */
  function Chunk(w: seq<nat>, h: seq<nat>): (r: nat)
    requires |w| <= |h|
    ensures r < W64
  {
    if |w| % 2 == 1 then Pairs(w, h, 1, (w[0] * h[0]) % W64) else Pairs(w, h, 0, 0)
  }

  /** Strings shorter than 16 words. */
  function Short(w: seq<nat>, h: seq<nat>): nat
    requires |w| < |h| && forall i :: 0 <= i < |h| ==> h[i] < W64
  {
    Xor64(Chunk(w, h), h[|w|]) / W32
  }

  // ------------------------------------------------ the multiplication across chunks

  /** H * M modulo the prime by four 32-bit products; every word operation wraps explicitly. */
  function FourProducts(p00: nat, p01: nat, p10: nat, p11: nat): nat {
    var c0 := ((p00 + (p01 * W32) % W64 + (p10 * W32) % W64) % W64) % W61;
    var c1 := ((p00 / W32 + p01 + p10) % W64) / 0x2000_0000;
    var c2 := (p11 * 8) % W64;
    var cc := (c0 + c1 + c2) % W64;
    cc % W61 + cc / W61
  }

  function MulPrime(h: nat, m: nat): nat {
    FourProducts((Low(h) * Low(m)) % W64, (Low(h) * High(m)) % W64, (High(h) * Low(m)) % W64, (High(h) * High(m)) % W64)
  }

  lemma SplitProduct(h: nat, m: nat)
    ensures h * m == (High(h) * High(m)) * W64 + (Low(h) * High(m) + High(h) * Low(m)) * W32 + Low(h) * Low(m)
  {
    var a, b, c, d := High(h), Low(h), High(m), Low(m);
    assert h == a * W32 + b && m == c * W32 + d;
    hide Low, High;
    Expand(a, b, c, d);
  }

  lemma Expand(a: nat, b: nat, c: nat, d: nat)
    ensures (a * W32 + b) * (c * W32 + d) == (a * c) * W64 + (b * c + a * d) * W32 + b * d
  {
    var k := c * W32 + d;
    assert (a * W32 + b) * k == (a * W32) * k + b * k;
    assert (a * W32) * k == (a * k) * W32;
    assert a * k == (a * c) * W32 + a * d by { assert a * (c * W32) == (a * c) * W32; }
    assert b * k == (b * c) * W32 + b * d by { assert b * (c * W32) == (b * c) * W32; }
  }

  /** The sizes of the four products for H below twice the prime and M up to the prime. */
  ghost predicate ProductsOk(p00: nat, p01: nat, p10: nat, p11: nat) {
    p00 < W64 && p01 < 0x2000_0000_0000_0000 && p10 < 0x4000_0000_0000_0000 && p11 < 0x800_0000_0000_0000
  }

  lemma ProductSizes(h: nat, m: nat)
    requires h < 2 * P && m <= P
    ensures ProductsOk(Low(h) * Low(m), Low(h) * High(m), High(h) * Low(m), High(h) * High(m))
  {
    assert High(h) <= 0x3FFF_FFFF && High(m) <= 0x1FFF_FFFF;
    ProductBound(Low(h), Low(m), W32 - 1, W32 - 1);
    ProductBound(Low(h), High(m), W32 - 1, 0x1FFF_FFFF);
    ProductBound(High(h), Low(m), 0x3FFF_FFFF, W32 - 1);
    ProductBound(High(h), High(m), 0x3FFF_FFFF, 0x1FFF_FFFF);
  }

  lemma LowSum(p00: nat, p01: nat, p10: nat)
    ensures ((p00 + (p01 * W32) % W64 + (p10 * W32) % W64) % W64) % W61 == ((p01 + p10) * W32 + p00) % W61
  {
    var a, b := (p01 * W32) / W64, (p10 * W32) / W64;
    var u := (p01 + p10) * W32 + p00;
    assert p00 + (p01 * W32) % W64 + (p10 * W32) % W64 == u - (a + b) * W64;
    Mod61(u, a + b);
    Mod61(u - (a + b) * W64, 0);
  }

  /** Only the sum C0 can wrap; the folded words are congruent to the four products. */
  lemma FourProductsCong(p00: nat, p01: nat, p10: nat, p11: nat)
    requires ProductsOk(p00, p01, p10, p11)
    ensures p00 / W32 + p01 + p10 < W64 && p11 * 8 < W64
    ensures FourProducts(p00, p01, p10, p11) < W61 + 4
    ensures Cong(FourProducts(p00, p01, p10, p11), p11 * W64 + (p01 + p10) * W32 + p00)
  {
    SumsFit(p00, p01, p10, p11);
    hide FourProducts, Cong, ProductsOk;
    var u := (p01 + p10) * W32 + p00;
    var cc := u % W61 + u / W61 + p11 * 8;
    FourProductsExact(p00, p01, p10, p11);
    FoldBound(cc);
    FoldCong(cc);
    CongSums(u, p11);
    CongTrans(cc % W61 + cc / W61, cc, p11 * W64 + u);
  }

  lemma SumsFit(p00: nat, p01: nat, p10: nat, p11: nat)
    requires ProductsOk(p00, p01, p10, p11)
    ensures p00 / W32 + p01 + p10 < W64 && p11 * 8 < W64
  {
  }

  lemma FoldBound(cc: nat)
    requires cc < W64 / 2
    ensures cc % W61 + cc / W61 < W61 + 4
  {
  }

  lemma CongTrans(a: int, b: int, c: int)
    requires Cong(a, b) && Cong(b, c)
    ensures Cong(a, c)
  {
  }

  lemma CongSums(u: nat, v: nat)
    ensures Cong(u % W61 + u / W61 + v * 8, v * W64 + u)
  {
    hide Cong;
    FoldCong(u);
    assert u % W61 + u / W61 + v * 8 == (v * W64 + u) - (u / W61 + v * 8) * P;
    CongShift(v * W64 + u, u / W61 + v * 8);
  }

  lemma FourProductsExact(p00: nat, p01: nat, p10: nat, p11: nat)
    requires ProductsOk(p00, p01, p10, p11)
    ensures var u := (p01 + p10) * W32 + p00;
            var cc := u % W61 + u / W61 + p11 * 8;
            cc < W64 / 2 && FourProducts(p00, p01, p10, p11) == cc % W61 + cc / W61
  {
    LowSum(p00, p01, p10);
    MiddleExact(p00, p01, p10);
    Small(p11 * 8);
    var u := (p01 + p10) * W32 + p00;
    Small(u % W61 + u / W61 + p11 * 8);
  }

  lemma MiddleExact(p00: nat, p01: nat, p10: nat)
    requires ProductsOk(p00, p01, p10, 0)
    ensures var q := ((p01 + p10) * W32 + p00) / W61;
            ((p00 / W32 + p01 + p10) % W64) / 0x2000_0000 == q < 0x4_0000_0000
  {
    ShiftTwice(p00, p01 + p10);
    Small(p00 / W32 + p01 + p10);
  }

  /** For H below twice the prime and M up to the prime the four products compute H * M modulo the prime. */
  lemma MulPrimeCong(h: nat, m: nat)
    requires h < 2 * P && m <= P
    ensures MulPrime(h, m) < W61 + 4 && Cong(MulPrime(h, m), h * m)
  {
    hide Low, High, FourProducts, Cong;
    ProductSizes(h, m);
    SplitProduct(h, m);
    FourProductsCong(Low(h) * Low(m), Low(h) * High(m), High(h) * Low(m), High(h) * High(m));
    Small(Low(h) * Low(m));
    Small(Low(h) * High(m));
    Small(High(h) * Low(m));
    Small(High(h) * High(m));
  }

  // ------------------------------------------------ whole strings

  function Finish(p: Params, h: nat, c: nat, len: nat): nat {
    (((h * 16) % W64 + c) % W64 + (len * p.factor) % W64) % W64 / W32
  }

  /** The wrap of each intermediate word does not matter: the sum is taken once modulo 2^64. */
  lemma FinishIs(p: Params, h: nat, c: nat, len: nat)
    ensures Finish(p, h, c, len) == ((16 * h + c + len * p.factor) % W64) / W32
  {
    SumWraps(h * 16, c, len * p.factor);
  }

  lemma SumWraps(u: nat, c: nat, v: nat)
    ensures ((u % W64 + c) % W64 + v % W64) % W64 == (u + c + v) % W64
  {
    AddWraps(u, c);
    AddWraps(u + c, v % W64);
    AddWraps(v, u + c);
  }

  lemma AddWraps(u: nat, c: nat)
    ensures (u % W64 + c) % W64 == (u + c) % W64
  {
  }

  /** The chunk loop from word i on, with accumulator h. */
  function Long(p: Params, x: seq<nat>, len: nat, i: nat, h: nat): nat
    requires |p.compr| == 16 && i < |x|
    decreases |x| - i
  {
    var d := if |x| - i > 16 then 16 else |x| - i;
    var c := Chunk(x[i..i + d], p.compr);
    if i + d == |x| then Finish(p, h, c, len)
    else Long(p, x, len, i + d, MulPrime((h + c / 16) % W64, p.base))
  }

  /** Hash of the words x with length term len. */
  function Hash(p: Params, x: seq<nat>, len: nat): nat
    requires ParamsOk(p)
  {
    if |x| < 16 then Short(x, p.compr) else Long(p, x, len, 0, 0)
  }

  /** The coefficients that the first n full chunks contribute. */
  ghost function Coefficients(p: Params, x: seq<nat>, n: nat): (cs: seq<nat>)
    requires |p.compr| == 16 && 16 * n <= |x|
    ensures |cs| == n
  {
    seq(n, k requires 0 <= k < n => Chunk(x[16 * k..16 * k + 16], p.compr) / 16)
  }

  /** The accumulator after n chunks. */
  ghost function HashAt(p: Params, x: seq<nat>, n: nat): nat
    requires |p.compr| == 16 && 16 * n <= |x|
  {
    if n == 0 then 0 else
    MulPrime((HashAt(p, x, n - 1) + Chunk(x[16 * n - 16..16 * n], p.compr) / 16) % W64, p.base)
  }

  /** One more chunk: the sum stays below twice the prime, so the multiplication is exact modulo the prime. */
  lemma ChunkStep(p: Params, h: nat, c: nat, q: int)
    requires ParamsOk(p) && h < W61 + 4 && c < W64 && Cong(h, q * p.base)
    ensures h + c / 16 < 2 * P
    ensures MulPrime((h + c / 16) % W64, p.base) < W61 + 4
    ensures Cong(MulPrime((h + c / 16) % W64, p.base), (q * p.base + c / 16) * p.base)
  {
    hide MulPrime;
    assert (h + c / 16) % W64 == h + c / 16;
    MulPrimeCong(h + c / 16, p.base);
    CongMulAdd(h, q * p.base, 1, c / 16);
    CongMulAdd(h + c / 16, q * p.base + c / 16, p.base, 0);
  }

  /**
   * Before every multiplication the accumulator is below twice the prime and is the polynomial of the chunks so far.
   */
  lemma {:induction false} AccumulatorIsPolynomial(p: Params, x: seq<nat>, n: nat)
    requires ParamsOk(p) && 16 * n <= |x|
    ensures HashAt(p, x, n) < W61 + 4
    ensures 16 * n + 16 <= |x| ==> HashAt(p, x, n) + Chunk(x[16 * n..16 * n + 16], p.compr) / 16 < 2 * P
    ensures Cong(HashAt(p, x, n), Poly(Coefficients(p, x, n), p.base, n) * p.base)
  {
    hide MulPrime, Chunk, Poly, Pairs;
    if n == 0 {
      EmptyPoly(Coefficients(p, x, 0), p.base);
    } else {
      AccumulatorIsPolynomial(p, x, n - 1);
      var c := Chunk(x[16 * n - 16..16 * n], p.compr);
      var cs, ds := Coefficients(p, x, n), Coefficients(p, x, n - 1);
      assert 16 * (n - 1) == 16 * n - 16;
      assert cs[n - 1] == c / 16 && cs[..n - 1] == ds;
      ChunkStep(p, HashAt(p, x, n - 1), c, Poly(ds, p.base, n - 1));
      Horner(cs, p.base, n - 1);
      PolyPrefix(cs, p.base, n - 1);
    }
  }

  lemma EmptyPoly(c: seq<nat>, x: int)
    ensures Poly(c, x, 0) == 0
  {
  }

  lemma PolyPrefix(c: seq<nat>, x: int, n: nat)
    requires n <= |c|
    ensures Poly(c[..n], x, n) == Poly(c, x, n)
  {
    PolyPrefixFrom(c, x, n, 0);
  }

  lemma {:induction false} PolyPrefixFrom(c: seq<nat>, x: int, n: nat, i: nat)
    requires i <= n <= |c|
    ensures PolyFrom(c[..n], x, n, i) == PolyFrom(c, x, n, i)
    decreases n - i
  {
    if i < n { PolyPrefixFrom(c, x, n, i + 1); }
  }

  lemma {:induction false} LongFrom(p: Params, x: seq<nat>, len: nat, k: nat)
    requires ParamsOk(p) && 16 * k < |x|
    ensures var n := (|x| - 1) / 16;
            Long(p, x, len, 16 * k, HashAt(p, x, k)) == Finish(p, HashAt(p, x, n), Chunk(x[16 * n..], p.compr), len)
    decreases |x| - 16 * k
  {
    hide MulPrime, Chunk, Finish;
    var i := 16 * k;
    if |x| - i > 16 {
      assert 16 * (k + 1) - 16 == i && 16 * (k + 1) == i + 16;
      LongFrom(p, x, len, k + 1);
    } else {
      assert (|x| - 1) / 16 == k && x[i..i + (|x| - i)] == x[i..];
    }
  }

  lemma LastChunk(p: Params, x: seq<nat>, len: nat)
    requires ParamsOk(p) && |x| >= 16
    ensures |p.compr| == 16
    ensures var n := (|x| - 1) / 16; Hash(p, x, len) == Finish(p, HashAt(p, x, n), Chunk(x[16 * n..], p.compr), len)
  {
    hide MulPrime, Chunk, Finish, Long;
    LongFrom(p, x, len, 0);
  }

  /**
   * A string of at least 16 words hashes to the high half of 16 H + C + len * factor, where C is the hash of the last
   * chunk and H is congruent to the polynomial of the earlier chunks in the base, times the base.
   */
  lemma LongIsPolynomial(p: Params, x: seq<nat>, len: nat)
    requires ParamsOk(p) && |x| >= 16
    ensures var n := (|x| - 1) / 16;
            var h := HashAt(p, x, n);
            && Hash(p, x, len) == ((16 * h + Chunk(x[16 * n..], p.compr) + len * p.factor) % W64) / W32
            && h < W61 + 4 && Cong(h, Poly(Coefficients(p, x, n), p.base, n) * p.base)
  {
    hide *;
    var n := (|x| - 1) / 16;
    LastChunk(p, x, len);
    AccumulatorIsPolynomial(p, x, n);
    FinishIs(p, HashAt(p, x, n), Chunk(x[16 * n..], p.compr), len);
  }

  // ------------------------------------------------ the loops over words

  method EvenStringHash32bit2univ(x: seq<nat>, hid: seq<nat>) returns (h: nat)
    requires |x| % 2 == 0 && |x| < |hid| && forall i :: 0 <= i < |hid| ==> hid[i] < W64
    ensures h == Short(x, hid)
  {
    hide Xor64, Pair;
    var acc: nat := 0;
    var i := 0;
    while i < |x|
      invariant 0 <= i <= |x| && i % 2 == 0 && acc < W64
      invariant Pairs(x, hid, i, acc) == Chunk(x, hid)
    {
      acc := Xor64(acc, Pair(x[i], x[i + 1], hid[i], hid[i + 1]));
      i := i + 2;
    }
    h := Xor64(acc, hid[|x|]) / W32;
  }

  method OddStringHash32bit2univ(x: seq<nat>, hid: seq<nat>) returns (h: nat)
    requires |x| % 2 == 1 && |x| < |hid| && forall i :: 0 <= i < |hid| ==> hid[i] < W64
    ensures h == Short(x, hid)
  {
    hide Xor64, Pair;
    var acc: nat := (x[0] * hid[0]) % W64;
    var i := 1;
    while i < |x|
      invariant 1 <= i <= |x| && i % 2 == 1 && acc < W64
      invariant Pairs(x, hid, i, acc) == Chunk(x, hid)
    {
      acc := Xor64(acc, Pair(x[i], x[i + 1], hid[i], hid[i + 1]));
      i := i + 2;
    }
    h := Xor64(acc, hid[|x|]) / W32;
  }

  method StringHash32bit2univ(x: seq<nat>, hid: seq<nat>) returns (h: nat)
    requires |x| < |hid| && forall i :: 0 <= i < |hid| ==> hid[i] < W64
    ensures h == Short(x, hid)
  {
    if |x| % 2 == 1 {
      h := OddStringHash32bit2univ(x, hid);
    } else {
      h := EvenStringHash32bit2univ(x, hid);
    }
  }

  /** The specialised form for two words agrees with the general one. */
  method String2Hash32bit2univ(x: seq<nat>, hid: seq<nat>) returns (h: nat)
    requires |x| == 2 && |hid| > 2 && forall i :: 0 <= i < |hid| ==> hid[i] < W64
    ensures h == Short(x, hid)
  {
    hide Pair, Xor;
    var acc := Pair(x[0], x[1], hid[0], hid[1]);
    XorZero(acc);
    assert Chunk(x, hid) == Pairs(x, hid, 2, acc);
    h := Xor64(acc, hid[2]) / W32;
  }

  /** The specialised form for three words agrees with the general one. */
  method String3Hash32bit2univ(x: seq<nat>, hid: seq<nat>) returns (h: nat)
    requires |x| == 3 && |hid| > 3 && forall i :: 0 <= i < |hid| ==> hid[i] < W64
    ensures h == Short(x, hid)
  {
    hide Pair, Xor;
    var acc := Xor64((x[0] * hid[0]) % W64, Pair(x[1], x[2], hid[1], hid[2]));
    assert Chunk(x, hid) == Pairs(x, hid, 1, (x[0] * hid[0]) % W64) == Pairs(x, hid, 3, acc);
    h := Xor64(acc, hid[3]) / W32;
  }

  /** Hash one chunk of d words of x from i on, using the hash words below index 16 only. */
  method HashChunk(x: seq<nat>, i0: nat, d: nat, compr: seq<nat>) returns (c: nat, i: nat)
    requires |compr| == 16 && d <= 16 && i0 + d <= |x|
    ensures i == i0 + d && c == Chunk(x[i0..i0 + d], compr) && c < W64
  {
    hide Xor64, Pair;
    ghost var w := x[i0..i0 + d];
    var j := 0;
    c, i := 0, i0;
    if d % 2 == 1 {
      c := (x[i] * compr[j]) % W64;
      i, j := i + 1, j + 1;
    }
    var e := d / 2;
    while e > 0
      invariant e >= 0 && j + 2 * e == d && i == i0 + j && c < W64
      invariant Pairs(w, compr, j, c) == Chunk(w, compr)
    {
      assert w[j] == x[i] && w[j + 1] == x[i + 1];
      c := Xor64(c, Pair(x[i], x[i + 1], compr[j], compr[j + 1]));
      i, j, e := i + 2, j + 2, e - 1;
    }
  }

  /** The hash of a string of 32-bit words. */
  method VarINT32StringHash32bitUniv(x: seq<nat>, p: Params) returns (r: nat)
    requires ParamsOk(p) && |x| < 0x8000_0000
    ensures r == Hash(p, x, |x|)
  {
    hide Chunk, MulPrime, Finish, Short;
    if |x| < 16 {
      r := StringHash32bit2univ(x, p.compr);
      return;
    }
    var h: nat, i: nat := 0, 0;
    while true
      invariant i < |x| && Long(p, x, |x|, i, h) == Hash(p, x, |x|)
      decreases |x| - i
    {
      var d := if |x| - i > 16 then 16 else |x| - i;
      ghost var i0 := i;
      var c;
      c, i := HashChunk(x, i, d, p.compr);
      if i == |x| {
        return Finish(p, h, c, |x|);
      }
      h := MulPrime((h + c / 16) % W64, p.base);
    }
  }

  // ------------------------------------------------ strings of bytes

  /** Little-endian value of up to four bytes. */
  function Little(b: seq<nat>): nat {
    if b == [] then 0 else b[0] + 256 * Little(b[1..])
  }

  function WordAt(b: seq<nat>, k: nat): nat
    requires 4 * k < |b|
  {
    Little(b[4 * k..if 4 * k + 4 < |b| then 4 * k + 4 else |b|])
  }

  /** The bytes as little-endian words, the last one padded with zeros. */
  function Pad(b: seq<nat>): (w: seq<nat>)
    ensures |w| == (|b| + 3) / 4
  {
    seq((|b| + 3) / 4, k requires 0 <= k < (|b| + 3) / 4 => WordAt(b, k))
  }

  /** Byte i of the string, or zero past its end. */
  function ByteAt(b: seq<nat>, i: nat): nat {
    if i < |b| then b[i] else 0
  }

  /** The value of a padded word: its four bytes, the least significant one first. */
  lemma PadWord(b: seq<nat>, k: nat)
    requires k < (|b| + 3) / 4
    ensures Pad(b)[k] == ByteAt(b, 4 * k) + 0x100 * ByteAt(b, 4 * k + 1) + 0x1_0000 * ByteAt(b, 4 * k + 2)
                       + 0x100_0000 * ByteAt(b, 4 * k + 3)
  {
    var s := b[4 * k..if 4 * k + 4 < |b| then 4 * k + 4 else |b|];
    assert Pad(b)[k] == Little(s);
    assert forall i: nat :: i < 4 ==> ByteAt(b, 4 * k + i) == ByteAt(s, i);
    LittleIs(s);
  }

  lemma LittleIs(s: seq<nat>)
    requires |s| <= 4
    ensures Little(s) == ByteAt(s, 0) + 0x100 * ByteAt(s, 1) + 0x1_0000 * ByteAt(s, 2) + 0x100_0000 * ByteAt(s, 3)
  {
    if |s| > 0 {
      LittleTail(s[1..]);
    }
  }

  lemma LittleTail(s: seq<nat>)
    requires |s| <= 3
    ensures Little(s) == ByteAt(s, 0) + 0x100 * ByteAt(s, 1) + 0x1_0000 * ByteAt(s, 2)
  {
    if |s| > 0 {
      assert Little(s[1..]) == ByteAt(s, 1) + 0x100 * ByteAt(s, 2) by {
        if |s| > 1 { assert Little(s[1..][1..]) == ByteAt(s, 2); }
      }
    }
  }

  lemma SubSlice<Y>(b: seq<Y>, from: nat, to: nat, i: nat, j: nat)
    requires from <= to <= |b| && i <= j <= to - from
    ensures b[from..to][i..j] == b[from + i..from + j]
  {
    forall k | 0 <= k < j - i ensures b[from..to][i..j][k] == b[from + i..from + j][k] {
      assert b[from..to][i + k] == b[from + i + k];
    }
  }

  /** The words of a 64-byte chunk, or of the last chunk, are a stretch of the words of the string. */
  lemma PadSlice(b: seq<nat>, m: nat, l: nat)
    requires 64 * m + l <= |b| && l <= 64 && (l == 64 || 64 * m + l == |b|)
    ensures 16 * m + (l + 3) / 4 <= |Pad(b)| && Pad(b)[16 * m..16 * m + (l + 3) / 4] == Pad(b[64 * m..64 * m + l])
  {
    hide Little;
    var s := b[64 * m..64 * m + l];
    forall k: nat | k < (l + 3) / 4 ensures Pad(b)[16 * m + k] == Pad(s)[k] {
      var lo := 4 * (16 * m + k);
      var hi := if lo + 4 < |b| then lo + 4 else |b|;
      var e := if 4 * k + 4 < |s| then 4 * k + 4 else |s|;
      assert 64 * m + e == hi && 64 * m + 4 * k == lo;
      SubSlice(b, 64 * m, 64 * m + l, 4 * k, e);
    }
  }

  lemma PadAt(b: seq<nat>, k: nat)
    requires k < (|b| + 3) / 4
    ensures var n := if 4 * k + 4 < |b| then 4 else |b| - 4 * k;
            4 * k + n <= |b| && n >= 0 && Pad(b)[k] == Little(b[4 * k..4 * k + n])
  {
    hide Little;
  }

  /** A zero word has no bytes to keep. */
  lemma NothingAbove(n: nat)
    ensures (0 / Pow256(n)) * Pow256(n) == 0
  {
    hide Pow256;
  }

  ghost predicate Zeros(a: array<nat>)
    reads a
  {
    a.Length == 16 && forall k :: 0 <= k < 16 ==> a[k] == 0
  }

  function Pow256(n: nat): (r: nat)
    ensures r > 0
  {
    if n == 0 then 1 else 256 * Pow256(n - 1)
  }

  class ByteHasher {
    const p: Params
    const intStr: array<nat>

    constructor (p: Params)
      requires ParamsOk(p)
      ensures this.p == p && fresh(intStr) && Zeros(intStr)
    {
      this.p := p;
      intStr := new nat[16](_ => 0);
    }

    /** memcpy of bytes into the word buffer: the bytes of a word that are not overwritten keep their value. */
    method CopyIn(s: seq<nat>)
      requires |s| <= 64 && Zeros(intStr)
      modifies intStr
      ensures forall k :: 0 <= k < 16 ==> intStr[k] == if k < (|s| + 3) / 4 then Pad(s)[k] else 0
    {
      hide Little, Pow256, Pad;
      var d := (|s| + 3) / 4;
      for k := 0 to d
        invariant forall j :: 0 <= j < 16 ==> intStr[j] == if j < k then Pad(s)[j] else 0
      {
        var n := if 4 * k + 4 < |s| then 4 else |s| - 4 * k;
        PadAt(s, k);
        NothingAbove(n);
        intStr[k] := Little(s[4 * k..4 * k + n]) + (intStr[k] / Pow256(n)) * Pow256(n);
      }
    }

    method ClearWords(d: nat)
      requires d <= 16 == intStr.Length && forall k :: d <= k < 16 ==> intStr[k] == 0
      modifies intStr
      ensures Zeros(intStr)
    {
      for i := 0 to d
        invariant forall k :: 0 <= k < 16 && (k < i || k >= d) ==> intStr[k] == 0
      {
        intStr[i] := 0;
      }
    }

    /** Hash the first d buffered words as one chunk. */
    method HashBuffer(d: nat) returns (c: nat)
      requires |p.compr| == 16 == intStr.Length && d <= 16
      ensures c == Chunk(intStr[..d], p.compr) && c < W64
    {
      hide Xor64, Pair;
      ghost var w := intStr[..d];
      var i := 0;
      c := 0;
      if d % 2 == 1 {
        c := (intStr[i] * p.compr[i]) % W64;
        i := i + 1;
      }
      while i < d
        invariant i <= d && (d - i) % 2 == 0 && c < W64
        invariant Pairs(w, p.compr, i, c) == Chunk(w, p.compr)
      {
        c := Xor64(c, Pair(intStr[i], intStr[i + 1], p.compr[i], p.compr[i + 1]));
        i := i + 2;
      }
    }

    /**
     * The hash of a byte string is the hash of its zero-padded little-endian words with the length counted in bytes,
     * and the word buffer is all zeros again on return.
     */
    method VarStringHash32bitUniv(x: seq<nat>) returns (r: nat)
      requires ParamsOk(p) && |x| < 0x8000_0000 && Zeros(intStr)
      modifies intStr
      ensures Zeros(intStr)
      ensures r == Hash(p, Pad(x), |x|)
    {
      hide Chunk, MulPrime, Finish, Short, Pad;
      if |x| <= 60 {
        CopyIn(x);
        var d := (|x| + 3) / 4;
        assert intStr[..d] == Pad(x);
        r := StringHash32bit2univ(intStr[..d], p.compr);
        ClearWords(d);
        return;
      }
      var h: nat, at: nat := 0, 0;
      ghost var m: nat := 0;
      while true
        invariant at < |x| && at == 64 * m && 16 * m < |Pad(x)| && Zeros(intStr)
        invariant Long(p, Pad(x), |x|, 16 * m, h) == Hash(p, Pad(x), |x|)
        decreases |x| - at
      {
        var l := if |x| - at > 64 then 64 else |x| - at;
        PadSlice(x, m, l);
        var s := x[at..at + l];
        CopyIn(s);
        at := at + l;
        var d := (l + 3) / 4;
        assert intStr[..d] == Pad(s);
        var c := HashBuffer(d);
        ClearWords(d);
        if at == |x| {
          return Finish(p, h, c, |x|);
        }
        h := MulPrime((h + c / 16) % W64, p.base);
        m := m + 1;
      }
    }
  }
}
