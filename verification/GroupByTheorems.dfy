/** When the double-buffered group-by computes the grouping of its whole input: exactly when groups do not come back. */
module GroupByTheorems {
  import opened Options
  import opened Grouping
  import opened GroupBy
  import opened GroupByProofs
  import T = Table

  /** Everything finalized so far, still waiting in the old table, or being collected. */
  ghost function Everything<X, G, A, O>(q: Query<X, G, A, O>, xs: seq<X>): seq<T.Item<G, A>> {
    var r := Run(q, xs);
    r.log + OldRest(r.s) + T.Items(Current(r.s))
  }

  // ------------------------------------------------ joining groupings

  ghost predicate NoCommon<X, G, A, O>(f: Functor<X, G, A, O>, xs: seq<X>, ys: seq<X>) {
    forall i, j :: 0 <= i < |xs| && 0 <= j < |ys| && f.group(xs[i]).Some? ==> f.group(xs[i]) != f.group(ys[j])
  }

  lemma {:induction false} MembersConcat<X, G, A, O>(f: Functor<X, G, A, O>, xs: seq<X>, ys: seq<X>, g: G)
    ensures Members(f, xs + ys, g) == Members(f, xs, g) + Members(f, ys, g)
  {
    if ys == [] {
      assert xs + ys == xs;
    } else {
      var n := |ys| - 1;
      assert (xs + ys)[..|xs + ys| - 1] == xs + ys[..n];
      MembersConcat(f, xs, ys[..n], g);
    }
  }

  /** A stored group has a tuple. */
  lemma Witness<X, G, A, O>(f: Functor<X, G, A, O>, xs: seq<X>, it: T.Item<G, A>) returns (i: nat)
    requires Aggregated(f, xs, it)
    ensures i < |xs| && f.group(xs[i]) == Some(it.key)
  {
    if forall k :: 0 <= k < |xs| ==> f.group(xs[k]) != Some(it.key) {
      MembersNone(f, xs, it.key);
    }
    i :| 0 <= i < |xs| && f.group(xs[i]) == Some(it.key);
  }

  lemma AggregatedLeft<X, G, A, O>(f: Functor<X, G, A, O>, xs: seq<X>, ys: seq<X>, it: T.Item<G, A>)
    requires Aggregated(f, xs, it) && NoCommon(f, xs, ys)
    ensures Aggregated(f, xs + ys, it)
  {
    hide Members, Fold;
    var i := Witness(f, xs, it);
    MembersNone(f, ys, it.key);
    MembersConcat(f, xs, ys, it.key);
    assert Members(f, xs, it.key) + [] == Members(f, xs, it.key);
  }

  lemma AggregatedRight<X, G, A, O>(f: Functor<X, G, A, O>, xs: seq<X>, ys: seq<X>, it: T.Item<G, A>)
    requires Aggregated(f, ys, it) && NoCommon(f, xs, ys)
    ensures Aggregated(f, xs + ys, it)
  {
    hide Members, Fold;
    var i := Witness(f, ys, it);
    MembersNone(f, xs, it.key);
    MembersConcat(f, xs, ys, it.key);
    assert [] + Members(f, ys, it.key) == Members(f, ys, it.key);
  }

  lemma GroupingConcat<X, G, A, O>(f: Functor<X, G, A, O>, xs: seq<X>, ys: seq<X>, a: seq<T.Item<G, A>>,
      b: seq<T.Item<G, A>>)
    requires IsGrouping(f, xs, a) && IsGrouping(f, ys, b) && NoCommon(f, xs, ys)
    ensures IsGrouping(f, xs + ys, a + b)
  {
    hide Aggregated;
    forall i | 0 <= i < |a + b| ensures Aggregated(f, xs + ys, (a + b)[i]) {
      if i < |a| { AggregatedLeft(f, xs, ys, a[i]); } else { AggregatedRight(f, xs, ys, b[i - |a|]); }
    }
    UniqueConcat(f, xs, ys, a, b);
    forall i | 0 <= i < |xs + ys| && f.group((xs + ys)[i]).Some? ensures HasKey(a + b, f.group((xs + ys)[i]).value) {
      KeyConcat(a, b, f.group((xs + ys)[i]).value);
    }
  }

  lemma KeyConcat<G, A>(a: seq<T.Item<G, A>>, b: seq<T.Item<G, A>>, g: G)
    ensures HasKey(a, g) || HasKey(b, g) ==> HasKey(a + b, g)
  {
    if i :| 0 <= i < |a| && a[i].key == g { assert (a + b)[i].key == g; }
    if i :| 0 <= i < |b| && b[i].key == g { assert (a + b)[|a| + i].key == g; }
  }

  lemma UniqueConcat<X, G, A, O>(f: Functor<X, G, A, O>, xs: seq<X>, ys: seq<X>, a: seq<T.Item<G, A>>,
      b: seq<T.Item<G, A>>)
    requires IsGrouping(f, xs, a) && IsGrouping(f, ys, b) && NoCommon(f, xs, ys)
    ensures T.UniqueKeys(a + b)
  {
    hide Aggregated;
    forall i, j | 0 <= i < |a| && 0 <= j < |b| ensures a[i].key != b[j].key {
      var k := Witness(f, xs, a[i]);
      var l := Witness(f, ys, b[j]);
    }
  }

  // ------------------------------------------------ stretches

  /** Number of the stretch that tuple i belongs to: the epoch changes up to it. */
  ghost function StretchOf<X, G, A, O>(q: Query<X, G, A, O>, xs: seq<X>, i: nat): nat
    requires i < |xs|
  {
    if i == 0 then 0 else StretchOf(q, xs, i - 1) + (if q.epoch(xs[i]) == q.epoch(xs[i - 1]) then 0 else 1)
  }

  lemma {:induction false} StretchPrefix<X, G, A, O>(q: Query<X, G, A, O>, xs: seq<X>, n: nat, i: nat)
    requires i < n <= |xs|
    ensures StretchOf(q, xs[..n], i) == StretchOf(q, xs, i)
  {
    if i > 0 { StretchPrefix(q, xs, n, i - 1); }
  }

  lemma {:induction false} StretchCount<X, G, A, O>(q: Query<X, G, A, O>, xs: seq<X>)
    requires xs != []
    ensures |Stretches(q, xs)| == StretchOf(q, xs, |xs| - 1) + 1
  {
    var n := |xs| - 1;
    if n > 0 {
      StretchCount(q, xs[..n]);
      StretchPrefix(q, xs, n, n - 1);
    }
  }

  /** Stretches follow the order of the tuples, and equal neighbours stay together. */
  lemma {:induction false} StretchOrder<X, G, A, O>(q: Query<X, G, A, O>, xs: seq<X>, i: nat, j: nat)
    requires i <= j < |xs|
    ensures StretchOf(q, xs, i) <= StretchOf(q, xs, j)
    ensures StretchOf(q, xs, i) == StretchOf(q, xs, j) <==> forall k :: i <= k <= j ==> q.epoch(xs[k]) == q.epoch(xs[i])
  {
    if i < j {
      StretchOrder(q, xs, i, j - 1);
    }
  }

  lemma {:induction false} StretchesFlat<X, G, A, O>(q: Query<X, G, A, O>, xs: seq<X>)
    ensures Concat(Stretches(q, xs)) == xs
  {
    if xs == [] {
      ConcatNil<X>();
    } else {
      hide Concat;
      var n := |xs| - 1;
      var ss := Stretches(q, xs[..n]);
      StretchesFlat(q, xs[..n]);
      ConcatLast(ss, ss[|ss| - 1] + [xs[n]]);
      ConcatLast(ss[|ss| - 1 := ss[|ss| - 1] + [xs[n]]], []);
      ConcatSnoc(ss, [xs[n]]);
      assert xs == xs[..n] + [xs[n]];
    }
  }

  /** Every tuple is in its stretch. */
  lemma {:induction false} TupleInStretch<X, G, A, O>(q: Query<X, G, A, O>, xs: seq<X>, i: nat) returns (a: nat)
    requires i < |xs|
    ensures var ss := Stretches(q, xs); var n := StretchOf(q, xs, i); n < |ss| && a < |ss[n]| && ss[n][a] == xs[i]
  {
    var m := |xs| - 1;
    StretchCount(q, xs);
    if i < m {
      a := TupleInStretch(q, xs[..m], i);
      StretchPrefix(q, xs, m, i);
    } else {
      a := |Stretches(q, xs)[StretchOf(q, xs, i)]| - 1;
    }
  }

  /** And a stretch holds nothing else. */
  lemma {:induction false} StretchTuple<X, G, A, O>(q: Query<X, G, A, O>, xs: seq<X>, n: nat, a: nat) returns (i: nat)
    requires n < |Stretches(q, xs)| && a < |Stretches(q, xs)[n]|
    ensures i < |xs| && xs[i] == Stretches(q, xs)[n][a] && StretchOf(q, xs, i) == n
  {
    var m := |xs| - 1;
    StretchCount(q, xs);
    var ss := Stretches(q, xs[..m]);
    if n < |ss| && a < |ss[n]| {
      i := StretchTuple(q, xs[..m], n, a);
      StretchPrefix(q, xs, m, i);
    } else {
      i := m;
      if m > 0 {
        StretchCount(q, xs[..m]);
        StretchPrefix(q, xs, m, m - 1);
      }
    }
  }

  // ------------------------------------------------ the theorem

  ghost predicate Disjoint<X, G, A, O>(q: Query<X, G, A, O>, ss: seq<seq<X>>) {
    forall n, m :: 0 <= n < m < |ss| ==> NoCommon(q.f, ss[n], ss[m])
  }

  lemma StayDisjoint<X, G, A, O>(q: Query<X, G, A, O>, xs: seq<X>)
    requires KeyedByEpoch(q, xs) && GroupsStay(q, xs)
    ensures Disjoint(q, Stretches(q, xs))
  {
    hide Stretches, StretchOf;
    var ss := Stretches(q, xs);
    forall n, m | 0 <= n < m < |ss| ensures NoCommon(q.f, ss[n], ss[m]) {
      forall a, b | 0 <= a < |ss[n]| && 0 <= b < |ss[m]| && q.f.group(ss[n][a]).Some?
        ensures q.f.group(ss[n][a]) != q.f.group(ss[m][b])
      {
        var i := StretchTuple(q, xs, n, a);
        var j := StretchTuple(q, xs, m, b);
        if j < i { StretchOrder(q, xs, j, i); } else { StretchOrder(q, xs, i, j); }
      }
    }
  }

  lemma {:induction false} ConcatMember<Y>(ss: seq<seq<Y>>, k: nat) returns (n: nat, a: nat)
    requires k < |Concat(ss)|
    ensures n < |ss| && a < |ss[n]| && ss[n][a] == Concat(ss)[k]
  {
    var m := |ss| - 1;
    if k < |Concat(ss[..m])| {
      n, a := ConcatMember(ss[..m], k);
    } else {
      n, a := m, k - |Concat(ss[..m])|;
    }
  }

  lemma {:induction false} ConcatPosition<Y>(ss: seq<seq<Y>>, n: nat, a: nat) returns (k: nat)
    requires n < |ss| && a < |ss[n]|
    ensures k < |Concat(ss)| && Concat(ss)[k] == ss[n][a]
    ensures |Concat(ss[..n])| <= k < |Concat(ss[..n + 1])|
  {
    var m := |ss| - 1;
    if n < m {
      k := ConcatPosition(ss[..m], n, a);
      assert ss[..m][..n] == ss[..n] && ss[..m][..n + 1] == ss[..n + 1];
    } else {
      assert ss[..n + 1] == ss;
      k := |Concat(ss[..m])| + a;
    }
  }

  lemma {:induction false} ConcatLonger<Y>(ss: seq<seq<Y>>, n: nat, m: nat)
    requires n <= m <= |ss|
    ensures |Concat(ss[..n])| <= |Concat(ss[..m])|
  {
    if n < m {
      ConcatLonger(ss, n, m - 1);
      assert ss[..m][..m - 1] == ss[..m - 1];
    }
  }

  lemma {:induction false} DisjointGrouping<X, G, A, O>(q: Query<X, G, A, O>, ss: seq<seq<X>>,
      parts: seq<seq<T.Item<G, A>>>)
    requires PartsOk(q, ss, parts) && Disjoint(q, ss)
    ensures IsGrouping(q.f, Concat(ss), Concat(parts))
  {
    hide IsGrouping, NoCommon;
    if ss == [] {
      EmptyGrouping(q.f);
    } else {
      var n := |ss| - 1;
      DisjointGrouping(q, ss[..n], parts[..n]);
      DisjointLast(q, ss);
      GroupingConcat(q.f, Concat(ss[..n]), ss[n], Concat(parts[..n]), parts[n]);
    }
  }

  lemma DisjointLast<X, G, A, O>(q: Query<X, G, A, O>, ss: seq<seq<X>>)
    requires Disjoint(q, ss) && ss != []
    ensures NoCommon(q.f, Concat(ss[..|ss| - 1]), ss[|ss| - 1])
  {
    hide Concat;
    var n := |ss| - 1;
    var c := Concat(ss[..n]);
    forall i, j | 0 <= i < |c| && 0 <= j < |ss[n]| && q.f.group(c[i]).Some?
      ensures q.f.group(c[i]) != q.f.group(ss[n][j])
    {
      var m, a := ConcatMember(ss[..n], i);
      assert NoCommon(q.f, ss[m], ss[n]);
    }
  }

  /** Two stretches that share a group store its key twice. */
  lemma SharedKeyTwice<X, G, A, O>(q: Query<X, G, A, O>, ss: seq<seq<X>>, parts: seq<seq<T.Item<G, A>>>, n: nat, a: nat,
      m: nat, b: nat)
    requires PartsOk(q, ss, parts) && n < m < |ss| && a < |ss[n]| && b < |ss[m]|
    requires q.f.group(ss[n][a]).Some? && q.f.group(ss[n][a]) == q.f.group(ss[m][b])
    ensures !T.UniqueKeys(Concat(parts))
  {
    hide Concat, Aggregated;
    var g := q.f.group(ss[n][a]).value;
    assert IsGrouping(q.f, ss[n], parts[n]) && IsGrouping(q.f, ss[m], parts[m]);
    assert HasKey(parts[n], g) && HasKey(parts[m], g);
    var i: nat :| i < |parts[n]| && parts[n][i].key == g;
    var j: nat :| j < |parts[m]| && parts[m][j].key == g;
    var k := ConcatPosition(parts, n, i);
    var l := ConcatPosition(parts, m, j);
    ConcatLonger(parts, n + 1, m);
    assert k < l && Concat(parts)[k].key == Concat(parts)[l].key;
  }

  lemma EverythingIsParts<X, G, A, O>(q: Query<X, G, A, O>, xs: seq<X>) returns (parts: seq<seq<T.Item<G, A>>>)
    requires KeyedByEpoch(q, xs)
    ensures PartsOk(q, Stretches(q, xs), parts) && Concat(parts) == Everything(q, xs)
  {
    hide PartsOk, Run, Good, Stretches, OldRest, T.Items, Current, Concat;
    parts := RunByStretch(q, xs);
    ConcatLast(parts, []);
  }

  /**
   * At any point of any run, the finalized groups, the unflushed suffix of the old table and the current table hold
   * each group exactly once with the fold of all its tuples, if and only if no other epoch came between two of its
   * tuples.
   */
  lemma ConservesIffGroupsStay<X, G, A, O>(q: Query<X, G, A, O>, xs: seq<X>)
    requires KeyedByEpoch(q, xs)
    ensures IsGrouping(q.f, xs, Everything(q, xs)) <==> GroupsStay(q, xs)
  {
    hide Run, Stretches, StretchOf, Everything, Aggregated, PartsOk, Concat;
    var parts := EverythingIsParts(q, xs);
    var ss := Stretches(q, xs);
    StretchesFlat(q, xs);
    if GroupsStay(q, xs) {
      StayDisjoint(q, xs);
      DisjointGrouping(q, ss, parts);
    } else {
      var i, j, k :| 0 <= i < k < j < |xs| && q.f.group(xs[i]).Some? && q.f.group(xs[i]) == q.f.group(xs[j])
          && q.epoch(xs[k]) != q.epoch(xs[i]);
      ReturnRepeats(q, xs, parts, i, j, k);
    }
  }

  lemma ReturnRepeats<X, G, A, O>(q: Query<X, G, A, O>, xs: seq<X>, parts: seq<seq<T.Item<G, A>>>, i: nat, j: nat,
      k: nat)
    requires PartsOk(q, Stretches(q, xs), parts) && i < k < j < |xs|
    requires q.f.group(xs[i]).Some? && q.f.group(xs[i]) == q.f.group(xs[j]) && q.epoch(xs[k]) != q.epoch(xs[i])
    ensures !T.UniqueKeys(Concat(parts))
  {
    hide Stretches, StretchOf, PartsOk, Concat, T.UniqueKeys;
    StretchOrder(q, xs, i, j);
    var a := TupleInStretch(q, xs, i);
    var b := TupleInStretch(q, xs, j);
    SharedKeyTwice(q, Stretches(q, xs), parts, StretchOf(q, xs, i), a, StretchOf(q, xs, j), b);
  }

  /** Non-decreasing epochs never return. */
  lemma OrderedStay<X, G, A, O>(q: Query<X, G, A, O>, xs: seq<X>)
    requires KeyedByEpoch(q, xs) && forall i, j :: 0 <= i < j < |xs| ==> q.epoch(xs[i]) <= q.epoch(xs[j])
    ensures GroupsStay(q, xs)
  {
    forall i, j, k | 0 <= i < k < j < |xs| && q.f.group(xs[i]).Some? && q.f.group(xs[i]) == q.f.group(xs[j])
      ensures q.epoch(xs[k]) == q.epoch(xs[i])
    {
      assert q.epoch(xs[i]) == q.epoch(xs[j]) && q.epoch(xs[i]) <= q.epoch(xs[k]) <= q.epoch(xs[j]);
    }
  }

  /** A run closed by the external flush outputs all groups of an ordered input exactly once and empties both tables. */
  lemma FlushCompletes<X, G, A, O>(q: Query<X, G, A, O>, xs: seq<X>)
    requires KeyedByEpoch(q, xs)
    ensures var r := Run(q, xs);
            var fl := Flush(r.s);
            && r.log + fl.log == Everything(q, xs)
            && T.Items(Current(fl.s)) == [] && T.Items(Old(fl.s)) == []
            && (IsGrouping(q.f, xs, r.log + fl.log) <==> GroupsStay(q, xs))
  {
    hide Run, Flush, Good, OldRest, T.Items, IsGrouping, GroupsStay, PartsOk, Concat;
    var parts := RunByStretch(q, xs);
    FlushAllOut(q, Run(q, xs).s);
    ConservesIffGroupsStay(q, xs);
    var r := Run(q, xs);
    assert r.log + (OldRest(r.s) + T.Items(Current(r.s))) == r.log + OldRest(r.s) + T.Items(Current(r.s));
  }

  /** A finished flush has left the old table empty. */
  lemma FinishedMeansEmpty<X, G, A, O>(q: Query<X, G, A, O>, xs: seq<X>)
    requires KeyedByEpoch(q, xs)
    ensures Run(q, xs).s.finished ==> T.Items(Old(Run(q, xs).s)) == []
  {
    hide Run, T.Items, T.Valid, PartsOk, Concat;
    var parts := RunByStretch(q, xs);
  }
}
