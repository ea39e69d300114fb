/** The pairwise hash of a chunk as the exclusive or of its products, whatever the order in which they are combined. */
module XorHash {
  import opened Hash61
  import opened StringHash
  import MultisetSum

  // ------------------------------------------------ bits

  function Bit(n: nat, i: nat): (b: nat)
    ensures b <= 1
  {
    if i == 0 then n % 2 else Bit(n / 2, i - 1)
  }

  lemma {:induction false} BitZero(i: nat)
    ensures Bit(0, i) == 0
  {
    if i > 0 { BitZero(i - 1); }
  }

  /** Each bit of the exclusive or is the sum of the two bits modulo two. */
  lemma {:induction false} BitXor(a: nat, b: nat, i: nat)
    ensures Bit(Xor(a, b), i) == (Bit(a, i) + Bit(b, i)) % 2
    decreases i
  {
    if a == 0 && b == 0 {
      BitZero(i);
    } else if i > 0 {
      BitXor(a / 2, b / 2, i - 1);
    }
  }

  /** A number is determined by its bits. */
  lemma {:induction false} BitsDetermine(a: nat, b: nat)
    requires forall i: nat :: Bit(a, i) == Bit(b, i)
    ensures a == b
    decreases a + b
  {
    if a != 0 || b != 0 {
      forall i: nat ensures Bit(a / 2, i) == Bit(b / 2, i) {
        assert Bit(a, i + 1) == Bit(b, i + 1);
      }
      assert Bit(a, 0) == Bit(b, 0);
      BitsDetermine(a / 2, b / 2);
    }
  }

  // ------------------------------------------------ the word width

  ghost function Pow2(n: nat): (p: nat)
    ensures p > 0
  {
    if n == 0 then 1 else 2 * Pow2(n - 1)
  }

  lemma {:induction false} XorBound(a: nat, b: nat, n: nat)
    requires a < Pow2(n) && b < Pow2(n)
    ensures Xor(a, b) < Pow2(n)
  {
    if n > 0 && (a != 0 || b != 0) {
      XorBound(a / 2, b / 2, n - 1);
    }
  }

  lemma Pow2Byte(n: nat)
    ensures Pow2(n + 8) == 256 * Pow2(n)
  {
    assert Pow2(n + 4) == 16 * Pow2(n) by { assert Pow2(n + 2) == 4 * Pow2(n); }
    assert Pow2(n + 8) == 16 * Pow2(n + 4) by { assert Pow2(n + 6) == 4 * Pow2(n + 4); }
  }

  lemma Pow2Word()
    ensures Pow2(64) == W64
  {
    hide Pow2;
    Pow2Zero();
    Pow2Byte(0);
    Pow2Byte(8);
    Pow2Byte(16);
    Pow2Byte(24);
    Pow2Byte(32);
    Pow2Byte(40);
    Pow2Byte(48);
    Pow2Byte(56);
  }

  lemma Pow2Zero()
    ensures Pow2(0) == 1
  {
  }

  /** The exclusive or of two words needs no truncation. */
  lemma XorWord(a: nat, b: nat)
    requires a < W64 && b < W64
    ensures Xor64(a, b) == Xor(a, b)
  {
    hide Xor, Pow2;
    Pow2Word();
    XorBound(a, b, 64);
    Small(Xor(a, b));
  }

  // ------------------------------------------------ counting bits over a list of products

  /** How many of the numbers have bit i. */
  ghost function Ones(s: seq<nat>, i: nat): nat {
    if s == [] then 0 else Ones(s[..|s| - 1], i) + Bit(s[|s| - 1], i)
  }

  lemma OnesSnoc(s: seq<nat>, x: nat, i: nat)
    ensures Ones(s + [x], i) == Ones(s, i) + Bit(x, i)
  {
    assert (s + [x])[..|s|] == s;
  }

  lemma {:induction false} OnesConcat(a: seq<nat>, b: seq<nat>, i: nat)
    ensures Ones(a + b, i) == Ones(a, i) + Ones(b, i)
  {
    hide Bit;
    if b == [] {
      assert a + b == a;
    } else {
      var n := |b| - 1;
      assert a + b == (a + b[..n]) + [b[n]];
      OnesConcat(a, b[..n], i);
      OnesSnoc(a + b[..n], b[n], i);
    }
  }

  lemma OnesOne(x: nat, i: nat)
    ensures Ones([x], i) == Bit(x, i)
  {
    OnesSnoc([], x, i);
    assert [] + [x] == [x];
  }

  lemma OnesRemove(s: seq<nat>, k: nat, i: nat)
    requires k < |s|
    ensures Ones(s, i) == Ones(s[..k] + s[k + 1..], i) + Bit(s[k], i)
  {
    hide Bit, Ones;
    assert s == (s[..k] + [s[k]]) + s[k + 1..];
    OnesConcat(s[..k] + [s[k]], s[k + 1..], i);
    OnesSnoc(s[..k], s[k], i);
    OnesConcat(s[..k], s[k + 1..], i);
  }

  /** The count does not depend on the order. */
  lemma {:induction false} OnesPerm(a: seq<nat>, b: seq<nat>, i: nat)
    requires multiset(a) == multiset(b)
    ensures Ones(a, i) == Ones(b, i)
    decreases |a|
  {
    hide Bit, Ones;
    if a == [] {
      assert |multiset(a)| == |multiset(b)|;
    } else {
      var n := |a| - 1;
      var k := MultisetSum.IndexOf(b, a[n]);
      OnesRemove(a, n, i);
      OnesRemove(b, k, i);
      MultisetSum.MultisetRemove(a, n);
      MultisetSum.MultisetRemove(b, k);
      assert a[..n] + a[n + 1..] == a[..n];
      OnesPerm(a[..n], b[..k] + b[k + 1..], i);
    }
  }

  /** The exclusive or of a list of numbers. */
  ghost function XorAll(s: seq<nat>): nat {
    if s == [] then 0 else Xor(XorAll(s[..|s| - 1]), s[|s| - 1])
  }

  lemma AddParity(a: nat, b: nat)
    ensures (a % 2 + b) % 2 == (a + b) % 2
  {
  }

  lemma {:induction false} XorAllBits(s: seq<nat>, i: nat)
    ensures Bit(XorAll(s), i) == Ones(s, i) % 2
  {
    hide Bit, Xor;
    if s == [] {
      BitZero(i);
    } else {
      var n := |s| - 1;
      XorAllBits(s[..n], i);
      BitXor(XorAll(s[..n]), s[n], i);
      AddParity(Ones(s[..n], i), Bit(s[n], i));
    }
  }

  // ------------------------------------------------ the products of a chunk

  /** The product of a pair: each word is added to the hash word of the other one, all modulo 2^64. */
  lemma PairIs(x0: nat, x1: nat, h0: nat, h1: nat)
    ensures Pair(x0, x1, h0, h1) == ((x0 + h1) * (x1 + h0)) % W64
  {
    MulWraps(x0 + h1, x1 + h0);
  }

  lemma MulWraps(a: nat, b: nat)
    ensures ((a % W64) * (b % W64)) % W64 == (a * b) % W64
  {
    var r, s := a % W64, b % W64;
    var k, l := a / W64, b / W64;
    assert a == k * W64 + r && b == l * W64 + s;
    hide *;
    assert a * b == r * s + (k * b + r * l) * W64 by { SplitMul(k, l, r, s); }
    Shift64(r * s, k * b + r * l);
  }

  lemma SplitMul(k: nat, l: nat, r: nat, s: nat)
    ensures (k * W64 + r) * (l * W64 + s) == r * s + (k * (l * W64 + s) + r * l) * W64
  {
    var b := l * W64 + s;
    assert (k * W64 + r) * b == (k * b) * W64 + r * b by { assert (k * W64) * b == (k * b) * W64; }
    assert r * b == (r * l) * W64 + r * s by { assert r * (l * W64) == (r * l) * W64; }
  }

  lemma Shift64(x: nat, k: nat)
    ensures (x + k * W64) % W64 == x % W64
  {
  }

  /** The products of the pairs of words from position j on. */
  ghost function PairProducts(w: seq<nat>, h: seq<nat>, j: nat): seq<nat>
    requires j <= |w| <= |h| && (|w| - j) % 2 == 0
  {
    seq((|w| - j) / 2, k requires 0 <= k < (|w| - j) / 2 =>
      ((w[j + 2 * k] + h[j + 2 * k + 1]) * (w[j + 2 * k + 1] + h[j + 2 * k])) % W64)
  }

  /** All products of a chunk: the odd first word times its hash word, and one product per pair. */
  ghost function Products(w: seq<nat>, h: seq<nat>): seq<nat>
    requires |w| <= |h|
  {
    if |w| % 2 == 1 then [(w[0] * h[0]) % W64] + PairProducts(w, h, 1) else PairProducts(w, h, 0)
  }

  lemma PairProductsCons(w: seq<nat>, h: seq<nat>, j: nat)
    requires j < |w| <= |h| && (|w| - j) % 2 == 0
    ensures PairProducts(w, h, j) == [Pair(w[j], w[j + 1], h[j], h[j + 1])] + PairProducts(w, h, j + 2)
  {
    PairIs(w[j], w[j + 1], h[j], h[j + 1]);
    hide Pair;
    var a, b := PairProducts(w, h, j), PairProducts(w, h, j + 2);
    forall k | 0 <= k < |b| ensures a[k + 1] == b[k] {
      assert j + 2 * (k + 1) == j + 2 + 2 * k;
    }
  }

  lemma {:induction false} PairsBits(w: seq<nat>, h: seq<nat>, j: nat, c: nat, i: nat)
    requires j <= |w| <= |h| && (|w| - j) % 2 == 0 && c < W64
    ensures Bit(Pairs(w, h, j, c), i) == (Bit(c, i) + Ones(PairProducts(w, h, j), i)) % 2
    decreases |w| - j
  {
    hide Bit, Xor, Xor64, Pair, PairProducts, Ones;
    if j == |w| {
      NoPairs(w, h, i);
    } else {
      var y := Pair(w[j], w[j + 1], h[j], h[j + 1]);
      var rest := PairProducts(w, h, j + 2);
      PairsBits(w, h, j + 2, Xor64(c, y), i);
      XorWord(c, y);
      BitXor(c, y, i);
      PairProductsCons(w, h, j);
      OnesConcat([y], rest, i);
      OnesOne(y, i);
      AddParity(Bit(c, i) + Bit(y, i), Ones(rest, i));
    }
  }

  lemma NoPairs(w: seq<nat>, h: seq<nat>, i: nat)
    requires |w| <= |h|
    ensures Ones(PairProducts(w, h, |w|), i) == 0
  {
    assert PairProducts(w, h, |w|) == [];
  }

  /** Bit i of a chunk hash is one exactly when an odd number of its products have that bit. */
  lemma ChunkBits(w: seq<nat>, h: seq<nat>, i: nat)
    requires |w| <= |h|
    ensures Bit(Chunk(w, h), i) == Ones(Products(w, h), i) % 2
  {
    hide Bit, Pairs, PairProducts, Ones;
    if |w| % 2 == 1 {
      var c := (w[0] * h[0]) % W64;
      PairsBits(w, h, 1, c, i);
      OnesConcat([c], PairProducts(w, h, 1), i);
      OnesOne(c, i);
    } else {
      PairsBits(w, h, 0, 0, i);
      BitZero(i);
    }
  }

  /** The hash of a chunk is the exclusive or of all its products, in any order. */
  lemma ChunkIsXor(w: seq<nat>, h: seq<nat>, s: seq<nat>)
    requires |w| <= |h| && multiset(s) == multiset(Products(w, h))
    ensures Chunk(w, h) == XorAll(s)
  {
    hide Bit, Chunk, Products, XorAll, Ones;
    forall i: nat ensures Bit(Chunk(w, h), i) == Bit(XorAll(s), i) {
      ChunkBits(w, h, i);
      OnesPerm(s, Products(w, h), i);
      XorAllBits(s, i);
    }
    BitsDetermine(Chunk(w, h), XorAll(s));
  }

  /** Strings of fewer than 16 words are short. */
  lemma HashIsXor(p: Params, w: seq<nat>, len: nat, s: seq<nat>)
    requires ParamsOk(p) && |w| < 16 && multiset(s) == multiset(Products(w, p.compr))
    ensures Hash(p, w, len) == XorAll(s + [p.compr[|w|]]) / W32
  {
    hide Chunk, Products, XorAll, Long;
    ShortIsXor(w, p.compr, s);
  }

  /** A short string hashes to the high half of that exclusive or and the hash word after the last one used. */
  lemma ShortIsXor(w: seq<nat>, h: seq<nat>, s: seq<nat>)
    requires |w| < |h| && (forall i :: 0 <= i < |h| ==> h[i] < W64) && multiset(s) == multiset(Products(w, h))
    ensures Short(w, h) == XorAll(s + [h[|w|]]) / W32
  {
    hide Chunk, Products, Xor;
    ChunkIsXor(w, h, s);
    XorWord(Chunk(w, h), h[|w|]);
    assert (s + [h[|w|]])[..|s|] == s;
  }
}
