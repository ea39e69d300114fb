/** Grouping and aggregation as a plain specification, shared by the group-by operators. */
module Grouping {
  import opened Options
  import T = Table

  /**
   * The generated group-by functor.  `group` is None for tuples that the WHERE clause rejects, `window` is the
   * temporal group-by variable of a group, aggregates are a fold over the tuples of a group, and `unsigned32` says
   * that the type of the temporal variable is a 32-bit unsigned integer.
   */
  datatype Functor<!X, !G, !A, O> = Functor(
    group: X -> Option<G>,
    window: G -> int,
    create: X -> A,
    update: (X, A) -> A,
    output: (G, A) -> Option<O>,
    hash: G -> nat,
    unsigned32: bool)

  /** The tuples of a group, in arrival order. */
  ghost function Members<X, G, A, O>(f: Functor<X, G, A, O>, xs: seq<X>, g: G): seq<X> {
    if xs == [] then [] else
    Members(f, xs[..|xs| - 1], g) + (if f.group(xs[|xs| - 1]) == Some(g) then [xs[|xs| - 1]] else [])
  }

  ghost function Fold<X, G, A, O>(f: Functor<X, G, A, O>, ys: seq<X>): A
    requires ys != []
  {
    var y := ys[|ys| - 1];
    if |ys| == 1 then f.create(y) else f.update(y, Fold(f, ys[..|ys| - 1]))
  }

  /** An item carries the full aggregate of its group. */
  ghost predicate Aggregated<X, G, A, O>(f: Functor<X, G, A, O>, xs: seq<X>, it: T.Item<G, A>) {
    var ys := Members(f, xs, it.key);
    ys != [] && it.val == Fold(f, ys)
  }

  /** The items are the groups of xs: each group exactly once, with the fold of all its tuples. */
  ghost predicate IsGrouping<X, G, A, O>(f: Functor<X, G, A, O>, xs: seq<X>, items: seq<T.Item<G, A>>) {
    && T.UniqueKeys(items)
    && (forall i :: 0 <= i < |items| ==> Aggregated(f, xs, items[i]))
    && (forall i :: 0 <= i < |xs| && f.group(xs[i]).Some? ==> HasKey(items, f.group(xs[i]).value))
  }

  ghost predicate HasKey<G, A>(items: seq<T.Item<G, A>>, g: G) {
    exists i :: 0 <= i < |items| && items[i].key == g
  }

  lemma MembersSnoc<X, G, A, O>(f: Functor<X, G, A, O>, xs: seq<X>, x: X, g: G)
    ensures Members(f, xs + [x], g) == Members(f, xs, g) + (if f.group(x) == Some(g) then [x] else [])
  {
    assert (xs + [x])[..|xs|] == xs;
  }

  lemma FoldSnoc<X, G, A, O>(f: Functor<X, G, A, O>, ys: seq<X>, x: X)
    ensures Fold(f, ys + [x]) == if ys == [] then f.create(x) else f.update(x, Fold(f, ys))
  {
    assert (ys + [x])[..|ys|] == ys;
  }

  /** A tuple of another group does not change an aggregate. */
  lemma AggregatedOther<X, G, A, O>(f: Functor<X, G, A, O>, xs: seq<X>, x: X, it: T.Item<G, A>)
    requires f.group(x) != Some(it.key)
    ensures Aggregated(f, xs + [x], it) <==> Aggregated(f, xs, it)
  {
    hide Fold, Members;
    MembersSnoc(f, xs, x, it.key);
    assert Members(f, xs, it.key) + [] == Members(f, xs, it.key);
  }

  /** A tuple outside every group changes nothing. */
  lemma GroupingSkip<X, G, A, O>(f: Functor<X, G, A, O>, xs: seq<X>, x: X, items: seq<T.Item<G, A>>)
    requires IsGrouping(f, xs, items) && f.group(x) == None
    ensures IsGrouping(f, xs + [x], items)
  {
    hide Aggregated, Members, T.UniqueKeys;
    forall i | 0 <= i < |items| ensures Aggregated(f, xs + [x], items[i]) {
      AggregatedOther(f, xs, x, items[i]);
    }
  }

  /** Updating the aggregate of a stored group accounts for one more of its tuples. */
  lemma GroupingUpdate<X, G, A, O>(f: Functor<X, G, A, O>, xs: seq<X>, x: X, g: G, items: seq<T.Item<G, A>>, i: nat)
    requires IsGrouping(f, xs, items) && f.group(x) == Some(g) && i < |items| && items[i].key == g
    ensures IsGrouping(f, xs + [x], items[i := T.Item(g, f.update(x, items[i].val))])
  {
    hide Members, Fold;
    var r := items[i := T.Item(g, f.update(x, items[i].val))];
    MembersSnoc(f, xs, x, g);
    assert Aggregated(f, xs, items[i]);
    FoldSnoc(f, Members(f, xs, g), x);
    assert Aggregated(f, xs + [x], r[i]);
    hide Aggregated;
    forall j | 0 <= j < |r| && j != i ensures Aggregated(f, xs + [x], r[j]) {
      assert items[j].key != items[i].key;
      AggregatedOther(f, xs, x, items[j]);
    }
    forall k | 0 <= k < |xs + [x]| && f.group((xs + [x])[k]).Some? ensures HasKey(r, f.group((xs + [x])[k]).value) {
      SameKeys(items, r, f.group((xs + [x])[k]).value);
    }
  }

  lemma SameKeys<G, A>(a: seq<T.Item<G, A>>, b: seq<T.Item<G, A>>, g: G)
    requires |a| == |b| && forall i :: 0 <= i < |a| ==> a[i].key == b[i].key
    ensures HasKey(a, g) <==> HasKey(b, g)
  {
  }

  /** Storing a new group, anywhere, accounts for its first tuple. */
  lemma GroupingInsert<X, G, A, O>(f: Functor<X, G, A, O>, xs: seq<X>, x: X, g: G, items: seq<T.Item<G, A>>, p: nat)
    requires IsGrouping(f, xs, items) && f.group(x) == Some(g) && p <= |items| && !HasKey(items, g)
    ensures IsGrouping(f, xs + [x], items[..p] + [T.Item(g, f.create(x))] + items[p..])
  {
    hide Members, Fold, T.UniqueKeys;
    var it := T.Item(g, f.create(x));
    var r := items[..p] + [it] + items[p..];
    MembersSnoc(f, xs, x, g);
    MembersNone(f, xs, g);
    FoldSnoc(f, [], x);
    assert [] + [x] == [x];
    assert Aggregated(f, xs + [x], it);
    hide Aggregated;
    forall y | y in items ensures y.key != g {
      var i :| 0 <= i < |items| && items[i] == y;
    }
    T.UniqueAt(items, p, it);
    forall j | 0 <= j < |r| ensures Aggregated(f, xs + [x], r[j]) {
      if j != p {
        var k := if j < p then j else j - 1;
        assert r[j] == items[k] && items[k] in items;
        AggregatedOther(f, xs, x, items[k]);
      }
    }
    forall k | 0 <= k < |xs + [x]| && f.group((xs + [x])[k]).Some? ensures HasKey(r, f.group((xs + [x])[k]).value) {
      InsertKey(items, p, it, f.group((xs + [x])[k]).value);
    }
  }

  lemma InsertKey<G, A>(items: seq<T.Item<G, A>>, p: nat, it: T.Item<G, A>, h: G)
    requires p <= |items|
    ensures HasKey(items[..p] + [it] + items[p..], h) <==> HasKey(items, h) || h == it.key
  {
    var r := items[..p] + [it] + items[p..];
    assert r[p] == it;
    if i :| 0 <= i < |items| && items[i].key == h {
      assert r[if i < p then i else i + 1].key == h;
    }
    if i :| 0 <= i < |r| && r[i].key == h && i != p {
      assert items[if i < p then i else i - 1].key == h;
    }
  }

  lemma {:induction false} MembersNone<X, G, A, O>(f: Functor<X, G, A, O>, xs: seq<X>, g: G)
    requires forall i :: 0 <= i < |xs| ==> f.group(xs[i]) != Some(g)
    ensures Members(f, xs, g) == []
  {
    if xs != [] {
      MembersNone(f, xs[..|xs| - 1], g);
    }
  }

  /** Outputs of the finalized groups. */
  function Outputs<X, G, A, O>(f: Functor<X, G, A, O>, items: seq<T.Item<G, A>>): seq<O> {
    if items == [] then [] else
    var o := f.output(items[|items| - 1].key, items[|items| - 1].val);
    Outputs(f, items[..|items| - 1]) + (if o.Some? then [o.value] else [])
  }

  lemma OutputsNil<X, G, A, O>(f: Functor<X, G, A, O>)
    ensures Outputs(f, []) == []
  {
  }

  lemma OutputsSnoc<X, G, A, O>(f: Functor<X, G, A, O>, items: seq<T.Item<G, A>>, x: T.Item<G, A>)
    ensures Outputs(f, items + [x])
        == Outputs(f, items) + (if f.output(x.key, x.val).Some? then [f.output(x.key, x.val).value] else [])
  {
    assert (items + [x])[..|items|] == items;
  }

  lemma {:induction false} OutputsConcat<X, G, A, O>(f: Functor<X, G, A, O>, a: seq<T.Item<G, A>>, b: seq<T.Item<G, A>>)
    ensures Outputs(f, a + b) == Outputs(f, a) + Outputs(f, b)
  {
    if b == [] {
      assert a + b == a;
    } else {
      var n := |b| - 1;
      assert a + b == (a + b[..n]) + [b[n]] && b == b[..n] + [b[n]];
      OutputsConcat(f, a, b[..n]);
      OutputsSnoc(f, a + b[..n], b[n]);
      OutputsSnoc(f, b[..n], b[n]);
    }
  }
}
