/** Sums of multiset-valued functions along a sequence. */
module MultisetSum {

  ghost function Sum<X, O>(f: X -> multiset<O>, s: seq<X>): multiset<O> {
    if s == [] then multiset{} else Sum(f, s[..|s| - 1]) + f(s[|s| - 1])
  }

  lemma SumSnoc<X, O>(f: X -> multiset<O>, s: seq<X>, x: X)
    ensures Sum(f, s + [x]) == Sum(f, s) + f(x)
  {
    assert (s + [x])[..|s|] == s;
  }

  lemma {:induction false} SumConcat<X, O>(f: X -> multiset<O>, a: seq<X>, b: seq<X>)
    ensures Sum(f, a + b) == Sum(f, a) + Sum(f, b)
  {
    if b == [] {
      assert a + b == a;
    } else {
      var n := |b| - 1;
      SumConcat(f, a, b[..n]);
      assert a + b == (a + b[..n]) + [b[n]];
      SumSnoc(f, a + b[..n], b[n]);
    }
  }

  lemma SumCons<X, O>(f: X -> multiset<O>, x: X, s: seq<X>)
    ensures Sum(f, [x] + s) == f(x) + Sum(f, s)
  {
    SumConcat(f, [x], s);
    assert [] + [x] == [x];
    SumSnoc(f, [], x);
  }

  lemma {:induction false} SumExt<X, O>(f: X -> multiset<O>, g: X -> multiset<O>, s: seq<X>)
    requires forall i :: 0 <= i < |s| ==> f(s[i]) == g(s[i])
    ensures Sum(f, s) == Sum(g, s)
  {
    if s != [] {
      SumExt(f, g, s[..|s| - 1]);
    }
  }

  lemma {:induction false} SumZero<X, O>(f: X -> multiset<O>, s: seq<X>)
    requires forall i :: 0 <= i < |s| ==> f(s[i]) == multiset{}
    ensures Sum(f, s) == multiset{}
  {
    if s != [] {
      SumZero(f, s[..|s| - 1]);
    }
  }

  lemma {:induction false} SumAdd<X, O>(f: X -> multiset<O>, g: X -> multiset<O>, h: X -> multiset<O>, s: seq<X>)
    requires forall i :: 0 <= i < |s| ==> h(s[i]) == f(s[i]) + g(s[i])
    ensures Sum(h, s) == Sum(f, s) + Sum(g, s)
  {
    if s != [] {
      SumAdd(f, g, h, s[..|s| - 1]);
    }
  }

  lemma SumRemove<X, O>(f: X -> multiset<O>, s: seq<X>, i: nat)
    requires i < |s|
    ensures Sum(f, s) == Sum(f, s[..i] + s[i + 1..]) + f(s[i])
  {
    assert s == s[..i] + ([s[i]] + s[i + 1..]);
    SumConcat(f, s[..i], [s[i]] + s[i + 1..]);
    SumCons(f, s[i], s[i + 1..]);
    SumConcat(f, s[..i], s[i + 1..]);
  }

  lemma MultisetRemove<X>(s: seq<X>, i: nat)
    requires i < |s|
    ensures multiset(s[..i] + s[i + 1..]) == multiset(s) - multiset{s[i]}
  {
    assert s == s[..i] + ([s[i]] + s[i + 1..]);
  }

  lemma IndexOf<X>(s: seq<X>, x: X) returns (i: nat)
    requires x in multiset(s)
    ensures i < |s| && s[i] == x
  {
    assert x in s;
    i :| i < |s| && s[i] == x;
  }

  /** The sum does not depend on the order of the sequence. */
  lemma {:induction false} SumPerm<X, O>(f: X -> multiset<O>, a: seq<X>, b: seq<X>)
    requires multiset(a) == multiset(b)
    ensures Sum(f, a) == Sum(f, b)
    decreases |a|
  {
    hide Sum;
    if a == [] {
      assert |multiset(a)| == |multiset(b)|;
    } else {
      var n := |a| - 1;
      var i := IndexOf(b, a[n]);
      SumRemove(f, a, n);
      SumRemove(f, b, i);
      MultisetRemove(a, n);
      MultisetRemove(b, i);
      assert a[..n] + a[n + 1..] == a[..n];
      SumPerm(f, a[..n], b[..i] + b[i + 1..]);
    }
  }
}
