/** The steps of the sampling operator on its tables: cleaning, admission and recording of a tuple. */
module CleanSteps {
  import opened Clean
  import T = Table
  import L = TableLaws

  /** The group table lost only groups of supergroup k and kept all aggregates. */
  ghost predicate OnlyShrank<X, G(!new), K, A, S, O>(q: Query<X, G, K, A, S, O>, gt: T.Table<G, A>, gt': T.Table<G, A>,
      k: K)
    requires |gt.chains| > 0 && |gt'.chains| > 0
  {
    forall g ::
      && (T.Has(gt', q.hash, g) ==> T.Has(gt, q.hash, g) && T.Get(gt', q.hash, g) == T.Get(gt, q.hash, g))
      && (T.Has(gt, q.hash, g) && q.super(g) != k ==> T.Has(gt', q.hash, g))
  }

  /** All groups of the list are stored. */
  ghost predicate Stored<X, G(!new), K, A, S, O>(q: Query<X, G, K, A, S, O>, gt: T.Table<G, A>, l: seq<G>)
    requires |gt.chains| > 0
  {
    forall i :: 0 <= i < |l| ==> T.Has(gt, q.hash, l[i])
  }

  /** The groups that a cleaning pass keeps, in order, and the supergroup state after it. */
  ghost function Survivors<X, G(!new), K, A, S, O>(q: Query<X, G, K, A, S, O>, gt: T.Table<G, A>, l: seq<G>, s: S,
      final: bool, cd: int): (seq<G>, S)
    requires |gt.chains| > 0 && Stored(q, gt, l)
  {
    if l == [] then ([], s) else
    var n := |l| - 1;
    var r := Survivors(q, gt, l[..n], s, final, cd);
    var a := T.Get(gt, q.hash, l[n]);
    var d := q.sample(final, l[n], a, r.1, cd);
    if d.0 then (r.0 + [l[n]], d.1) else (r.0, q.minus(l[n], a, d.1))
  }

  lemma SurvivorsSnoc<X, G(!new), K, A, S, O>(q: Query<X, G, K, A, S, O>, gt: T.Table<G, A>, l: seq<G>, n: nat, s: S,
      final: bool, cd: int)
    requires |gt.chains| > 0 && Stored(q, gt, l) && n < |l|
    ensures Stored(q, gt, l[..n]) && Stored(q, gt, l[..n + 1])
    ensures var r := Survivors(q, gt, l[..n], s, final, cd);
            var a := T.Get(gt, q.hash, l[n]);
            var d := q.sample(final, l[n], a, r.1, cd);
            Survivors(q, gt, l[..n + 1], s, final, cd)
            == if d.0 then (r.0 + [l[n]], d.1) else (r.0, q.minus(l[n], a, d.1))
  {
    hide T.Has, T.Get;
    assert l[..n + 1][..n] == l[..n];
  }

  lemma {:induction false} SurvivorsFrame<X, G(!new), K, A, S, O>(q: Query<X, G, K, A, S, O>, gt: T.Table<G, A>,
      gt': T.Table<G, A>, l: seq<G>, s: S, final: bool, cd: int)
    requires |gt.chains| > 0 && |gt'.chains| > 0 && Stored(q, gt, l) && Stored(q, gt', l)
    requires forall i :: 0 <= i < |l| ==> T.Get(gt', q.hash, l[i]) == T.Get(gt, q.hash, l[i])
    ensures Survivors(q, gt', l, s, final, cd) == Survivors(q, gt, l, s, final, cd)
  {
    hide T.Has, T.Get;
    if l != [] { SurvivorsFrame(q, gt, gt', l[..|l| - 1], s, final, cd); }
  }

  /** The list of a supergroup is stored in the group table. */
  lemma ListStored<X, G(!new), K(!new), A, S, O>(q: Query<X, G, K, A, S, O>, gt: T.Table<G, A>, st: T.Table<K, S>,
      at: T.Table<K, Attr<G>>, k: K)
    requires SideOk(q, gt, st, at) && T.Has(at, q.superHash, k)
    ensures var a := T.Get(at, q.superHash, k);
            && T.Has(st, q.superHash, k) && Stored(q, gt, a.list) && a.count == |a.list|
            && (forall i :: 0 <= i < |a.list| ==> q.super(a.list[i]) == k)
  {
    hide T.Has, T.Get, TablesOk;
    var a := T.Get(at, q.superHash, k);
    assert AttrOk(q, gt, a, k);
    assert forall i :: 0 <= i < |a.list| ==> a.list[i] in a.list;
  }

  // ------------------------------------------------ cleaning

  /** Where a cleaning pass over the list l0 stands after n groups. */
  ghost predicate Cleaning<X, G(!new), K(!new), A, S, O>(q: Query<X, G, K, A, S, O>, gt0: T.Table<G, A>,
      st0: T.Table<K, S>, at0: T.Table<K, Attr<G>>,
      k: K, final: bool, l0: seq<G>, s0: S, n: nat, i: nat, gt: T.Table<G, A>, st: T.Table<K, S>,
      at: T.Table<K, Attr<G>>)
  {
    && SideOk(q, gt0, st0, at0) && SideOk(q, gt, st, at) && n <= |l0|
    && Stored(q, gt0, l0[..n]) && T.Has(at, q.superHash, k) && T.Has(st, q.superHash, k)
    && (var r := Survivors(q, gt0, l0[..n], s0, final, |l0|);
        T.Get(at, q.superHash, k).list == r.0 + l0[n..] && T.Get(st, q.superHash, k) == r.1 && i == |r.0|)
    && OnlyShrank(q, gt0, gt, k) && SameBut(st0, st, q.superHash, k) && SameBut(at0, at, q.superHash, k)
  }

  lemma CleanStart<X, G(!new), K(!new), A, S, O>(q: Query<X, G, K, A, S, O>, gt: T.Table<G, A>, st: T.Table<K, S>,
      at: T.Table<K, Attr<G>>, k: K, final: bool)
    requires SideOk(q, gt, st, at) && T.Has(at, q.superHash, k) && T.Has(st, q.superHash, k)
    ensures Cleaning(q, gt, st, at, k, final, T.Get(at, q.superHash, k).list, T.Get(st, q.superHash, k), 0, 0,
                     gt, st, at)
  {
    hide T.Has, T.Get, TablesOk, KeysOk, CountsOk;
  }

  /** One turn that keeps the group. */
  lemma CleanKeep<X, G(!new), K(!new), A, S, O>(q: Query<X, G, K, A, S, O>, gt0: T.Table<G, A>, st0: T.Table<K, S>,
      at0: T.Table<K, Attr<G>>,
      k: K, final: bool, l0: seq<G>, s0: S, n: nat, i: nat, gt: T.Table<G, A>, st: T.Table<K, S>,
      at: T.Table<K, Attr<G>>, s: S)
    requires Cleaning(q, gt0, st0, at0, k, final, l0, s0, n, i, gt, st, at) && n < |l0| && Stored(q, gt0, l0)
    requires q.sample(final, l0[n], T.Get(gt0, q.hash, l0[n]), T.Get(st, q.superHash, k), |l0|) == (true, s)
    ensures Cleaning(q, gt0, st0, at0, k, final, l0, s0, n + 1, i + 1, gt, T.Put(st, q.superHash, k, s), at)
  {
    hide T.Has, T.Get, T.Put, TablesOk, KeysOk, CountsOk, Survivors, T.Valid;
    SurvivorsSnoc(q, gt0, l0, n, s0, final, |l0|);
    PutState(q, gt, st, at, k, s);
    SideTables(q, gt, st, at);
    PutSame(st, q.superHash, k, s);
    assert [l0[n]] + l0[n + 1..] == l0[n..];
    var r := Survivors(q, gt0, l0[..n], s0, final, |l0|);
    assert (r.0 + [l0[n]]) + l0[n + 1..] == r.0 + ([l0[n]] + l0[n + 1..]);
  }

  lemma SideTables<X, G(!new), K(!new), A, S, O>(q: Query<X, G, K, A, S, O>, gt: T.Table<G, A>, st: T.Table<K, S>,
      at: T.Table<K, Attr<G>>)
    requires SideOk(q, gt, st, at)
    ensures TablesOk(q, gt, st, at) && T.Valid(gt, q.hash) && T.Valid(st, q.superHash) && T.Valid(at, q.superHash)
    ensures T.UniqueKeys(T.Items(gt)) && T.UniqueKeys(T.Items(st))
  {
    hide T.Valid, KeysOk, CountsOk, T.UniqueKeys;
  }

  /** One turn that evicts the group. */
  lemma CleanEvict<X, G(!new), K(!new), A, S, O>(q: Query<X, G, K, A, S, O>, gt0: T.Table<G, A>, st0: T.Table<K, S>,
      at0: T.Table<K, Attr<G>>,
      k: K, final: bool, l0: seq<G>, s0: S, n: nat, i: nat, gt: T.Table<G, A>, st: T.Table<K, S>,
      at: T.Table<K, Attr<G>>, s: S)
    requires Cleaning(q, gt0, st0, at0, k, final, l0, s0, n, i, gt, st, at) && n < |l0| && Stored(q, gt0, l0)
    requires q.sample(final, l0[n], T.Get(gt0, q.hash, l0[n]), T.Get(st, q.superHash, k), |l0|) == (false, s)
    ensures var s' := q.minus(l0[n], T.Get(gt0, q.hash, l0[n]), s);
            var a := T.Get(at, q.superHash, k);
            && i < |a.list| && q.super(l0[n]) == k && T.Has(gt, q.hash, l0[n])
            && Cleaning(q, gt0, st0, at0, k, final, l0, s0, n + 1, i,
                        T.Erase(gt, q.hash, l0[n]), T.Put(st, q.superHash, k, s'),
                        T.Put(at, q.superHash, k, Attr(a.count - 1, a.list[..i] + a.list[i + 1..])))
  {
    hide T.Has, T.Get, T.Put, TablesOk, KeysOk, CountsOk, Survivors, T.Valid, T.Erase, T.UniqueKeys;
    var g := l0[n];
    var s' := q.minus(g, T.Get(gt0, q.hash, g), s);
    var a := T.Get(at, q.superHash, k);
    var r := Survivors(q, gt0, l0[..n], s0, final, |l0|);
    SurvivorsSnoc(q, gt0, l0, n, s0, final, |l0|);
    assert a.list == r.0 + l0[n..] && a.list[i] == g;
    assert a.list[..i] + a.list[i + 1..] == r.0 + l0[n + 1..];
    EvictOk(q, gt, st, at, k, i);
    SideTables(q, gt, st, at);
    var at' := T.Put(at, q.superHash, k, Attr(a.count - 1, a.list[..i] + a.list[i + 1..]));
    PutState(q, T.Erase(gt, q.hash, g), st, at', k, s');
    PutSame(st, q.superHash, k, s');
    PutSame(at, q.superHash, k, Attr(a.count - 1, a.list[..i] + a.list[i + 1..]));
    EraseSame(gt, q.hash, g);
  }

  /** What a turn needs to know. */
  lemma CleaningFacts<X, G(!new), K(!new), A, S, O>(q: Query<X, G, K, A, S, O>, gt0: T.Table<G, A>, st0: T.Table<K, S>,
      at0: T.Table<K, Attr<G>>,
      k: K, final: bool, l0: seq<G>, s0: S, n: nat, i: nat, gt: T.Table<G, A>, st: T.Table<K, S>,
      at: T.Table<K, Attr<G>>)
    requires Cleaning(q, gt0, st0, at0, k, final, l0, s0, n, i, gt, st, at)
    ensures |gt0.chains| > 0 && |gt.chains| > 0 && |st.chains| > 0 && |at.chains| > 0
    ensures T.Has(at, q.superHash, k) && T.Has(st, q.superHash, k) && n <= |l0|
    ensures |T.Get(at, q.superHash, k).list| == i + |l0| - n
    ensures n < |l0| ==>
              && T.Get(at, q.superHash, k).list[i] == l0[n] && q.super(l0[n]) == k
              && T.Has(gt, q.hash, l0[n]) && T.Has(gt0, q.hash, l0[n])
              && T.Get(gt, q.hash, l0[n]) == T.Get(gt0, q.hash, l0[n])
  {
    hide T.Has, T.Get, TablesOk, KeysOk, CountsOk, Survivors;
    ListStored(q, gt, st, at, k);
  }

  ghost predicate Cleaned<X, G(!new), K(!new), A, S, O>(q: Query<X, G, K, A, S, O>, gt0: T.Table<G, A>,
      st0: T.Table<K, S>, at0: T.Table<K, Attr<G>>,
      k: K, s0: S, final: bool, gt: T.Table<G, A>, st: T.Table<K, S>, at: T.Table<K, Attr<G>>)
  {
    && Sized(gt0, st0, at0) && Sized(gt, st, at)
    && T.Has(at0, q.superHash, k) && T.Has(at, q.superHash, k) && T.Has(st, q.superHash, k)
    && (var l0 := T.Get(at0, q.superHash, k).list;
        && Stored(q, gt0, l0)
        && var r := Survivors(q, gt0, l0, s0, final, |l0|);
           T.Get(at, q.superHash, k).list == r.0 && T.Get(st, q.superHash, k) == r.1)
    && OnlyShrank(q, gt0, gt, k) && SameBut(st0, st, q.superHash, k) && SameBut(at0, at, q.superHash, k)
  }

  lemma CleanDone<X, G(!new), K(!new), A, S, O>(q: Query<X, G, K, A, S, O>, gt0: T.Table<G, A>, st0: T.Table<K, S>,
      at0: T.Table<K, Attr<G>>,
      k: K, final: bool, s0: S, n: nat, i: nat, gt: T.Table<G, A>, st: T.Table<K, S>, at: T.Table<K, Attr<G>>)
    requires |at0.chains| > 0 && T.Has(at0, q.superHash, k) && n == |T.Get(at0, q.superHash, k).list|
    requires Cleaning(q, gt0, st0, at0, k, final, T.Get(at0, q.superHash, k).list, s0, n, i, gt, st, at)
    ensures SideOk(q, gt, st, at) && Cleaned(q, gt0, st0, at0, k, s0, final, gt, st, at)
  {
    hide T.Has, T.Get, TablesOk, KeysOk, CountsOk, Survivors;
    var l0 := T.Get(at0, q.superHash, k).list;
    assert l0[..n] == l0;
    var r := Survivors(q, gt0, l0, s0, final, |l0|);
    assert r.0 + l0[n..] == r.0;
  }

  /** One turn of the cleaning loop at list position i. */
  method CleanTurn<X, G(==, !new), K(==, !new), A, S, O>(q: Query<X, G, K, A, S, O>, gt1: T.Table<G, A>,
      st1: T.Table<K, S>, at1: T.Table<K, Attr<G>>,
      k: K, final: bool, cd: int, i1: nat, ghost gt0: T.Table<G, A>, ghost st0: T.Table<K, S>,
      ghost at0: T.Table<K, Attr<G>>, ghost l0: seq<G>, ghost s0: S, ghost n: nat)
      returns (gt: T.Table<G, A>, st: T.Table<K, S>, at: T.Table<K, Attr<G>>, i: nat)
    requires Cleaning(q, gt0, st0, at0, k, final, l0, s0, n, i1, gt1, st1, at1) && n < |l0| == cd
    requires |gt0.chains| > 0 && Stored(q, gt0, l0)
    ensures Cleaning(q, gt0, st0, at0, k, final, l0, s0, n + 1, i, gt, st, at)
  {
    hide T.Has, T.Get, T.Put, T.Erase, Cleaning, Stored;
    CleaningFacts(q, gt0, st0, at0, k, final, l0, s0, n, i1, gt1, st1, at1);
    gt, st, at, i := gt1, st1, at1, i1;
    var a := T.Get(at, q.superHash, k);
    var g := a.list[i];
    var aggr := T.Get(gt, q.hash, g);
    var d := q.sample(final, g, aggr, T.Get(st, q.superHash, k), cd);
    if d.0 {
      CleanKeep(q, gt0, st0, at0, k, final, l0, s0, n, i, gt, st, at, d.1);
      st := T.Put(st, q.superHash, k, d.1);
      i := i + 1;
    } else {
      CleanEvict(q, gt0, st0, at0, k, final, l0, s0, n, i, gt, st, at, d.1);
      st := T.Put(st, q.superHash, k, q.minus(g, aggr, d.1));
      gt := T.Erase(gt, q.hash, g);
      L.PutPut(at, q.superHash, k, Attr(a.count - 1, a.list), Attr(a.count - 1, a.list[..i] + a.list[i + 1..]));
      at := T.Put(at, q.superHash, q.super(g), Attr(a.count - 1, a.list));
      at := T.Put(at, q.superHash, k, Attr(T.Get(at, q.superHash, k).count, a.list[..i] + a.list[i + 1..]));
    }
  }

  /**
   * Clean the groups of supergroup k: exactly those the sampling predicate keeps survive, in list, count and group
   * table alike; other supergroups are untouched.
   */
  method CleanSuper<X, G(==, !new), K(==, !new), A, S, O>(q: Query<X, G, K, A, S, O>, gt0: T.Table<G, A>,
      st0: T.Table<K, S>, at0: T.Table<K, Attr<G>>,
      k: K, final: bool) returns (gt: T.Table<G, A>, st: T.Table<K, S>, at: T.Table<K, Attr<G>>)
    requires SideOk(q, gt0, st0, at0) && T.Has(at0, q.superHash, k)
    ensures |st0.chains| > 0 && T.Has(st0, q.superHash, k)
    ensures SideOk(q, gt, st, at) && Cleaned(q, gt0, st0, at0, k, T.Get(st0, q.superHash, k), final, gt, st, at)
  {
    hide T.Has, T.Get, Cleaning, Stored, SideOk, Cleaned;
    SizedSide(q, gt0, st0, at0);
    ListStored(q, gt0, st0, at0, k);
    var cd := T.Get(at0, q.superHash, k).count;
    ghost var l0, s0 := T.Get(at0, q.superHash, k).list, T.Get(st0, q.superHash, k);
    gt, st, at := gt0, st0, at0;
    var i: nat := 0;
    ghost var n: nat := 0;
    CleanStart(q, gt, st, at, k, final);
    CleaningFacts(q, gt0, st0, at0, k, final, l0, s0, n, i, gt, st, at);
    while i < |T.Get(at, q.superHash, k).list|
      invariant Cleaning(q, gt0, st0, at0, k, final, l0, s0, n, i, gt, st, at) && n <= |l0|
      invariant |at.chains| > 0 && T.Has(at, q.superHash, k) && |T.Get(at, q.superHash, k).list| == i + |l0| - n
      decreases |l0| - n
    {
      gt, st, at, i := CleanTurn(q, gt, st, at, k, final, cd, i, gt0, st0, at0, l0, s0, n);
      n := n + 1;
      CleaningFacts(q, gt0, st0, at0, k, final, l0, s0, n, i, gt, st, at);
    }
    CleanDone(q, gt0, st0, at0, k, final, s0, n, i, gt, st, at);
  }

  // ------------------------------------------------ the final cleaning of a window

  /** Supergroup k has been finalized and cleaned. */
  ghost predicate Finalized<X, G(!new), K(!new), A, S, O>(q: Query<X, G, K, A, S, O>, gt0: T.Table<G, A>,
      st0: T.Table<K, S>, at0: T.Table<K, Attr<G>>,
      k: K, st: T.Table<K, S>, at: T.Table<K, Attr<G>>)
  {
    && Sized(gt0, st0, at0) && Sized(gt0, st, at)
    && T.Has(st0, q.superHash, k) && T.Has(at0, q.superHash, k)
    && T.Has(st, q.superHash, k) && T.Has(at, q.superHash, k)
    && var a0 := T.Get(at0, q.superHash, k);
       && Stored(q, gt0, a0.list)
       && var r := Survivors(q, gt0, a0.list, q.finalize(T.Get(st0, q.superHash, k), a0.count), true, |a0.list|);
          T.Get(at, q.superHash, k).list == r.0 && T.Get(st, q.superHash, k) == r.1
  }

  ghost predicate Untouched<X, G(!new), K(!new), A, S, O>(q: Query<X, G, K, A, S, O>, gt0: T.Table<G, A>,
      st0: T.Table<K, S>, at0: T.Table<K, Attr<G>>,
      k: K, gt: T.Table<G, A>, st: T.Table<K, S>, at: T.Table<K, Attr<G>>)
  {
    && Sized(gt0, st0, at0) && Sized(gt, st, at)
    && T.Has(st0, q.superHash, k) && T.Has(at0, q.superHash, k)
    && T.Has(st, q.superHash, k) && T.Has(at, q.superHash, k)
    && T.Get(at, q.superHash, k) == T.Get(at0, q.superHash, k)
    && T.Get(st, q.superHash, k) == T.Get(st0, q.superHash, k)
    && forall g :: q.super(g) == k && T.Has(gt0, q.hash, g) ==> T.Has(gt, q.hash, g)
  }

  /** No group appears and no aggregate changes. */
  ghost predicate Shrank<X, G(!new), K, A, S, O>(q: Query<X, G, K, A, S, O>, gt0: T.Table<G, A>, gt: T.Table<G, A>) {
    && |gt0.chains| > 0 && |gt.chains| > 0
    && forall g :: T.Has(gt, q.hash, g) ==> T.Has(gt0, q.hash, g) && T.Get(gt, q.hash, g) == T.Get(gt0, q.hash, g)
  }

  ghost predicate SameKeys<K(!new), V>(t: T.Table<K, V>, t': T.Table<K, V>, hash: K -> nat) {
    |t.chains| > 0 && |t'.chains| > 0 && forall k :: T.Has(t', hash, k) <==> T.Has(t, hash, k)
  }

  ghost predicate FinalAt<X, G(!new), K(!new), A, S, O>(q: Query<X, G, K, A, S, O>, gt0: T.Table<G, A>,
      st0: T.Table<K, S>, at0: T.Table<K, Attr<G>>,
      items: seq<T.Item<K, S>>, j: nat, gt: T.Table<G, A>, st: T.Table<K, S>, at: T.Table<K, Attr<G>>)
  {
    && SideOk(q, gt0, st0, at0) && SideOk(q, gt, st, at) && Shrank(q, gt0, gt) && SameKeys(st0, st, q.superHash)
    && (forall i :: 0 <= i < j && i < |items| ==> Finalized(q, gt0, st0, at0, items[i].key, st, at))
    && (forall i :: j <= i < |items| ==> Untouched(q, gt0, st0, at0, items[i].key, gt, st, at))
  }

  lemma FinalStart<X, G(!new), K(!new), A, S, O>(q: Query<X, G, K, A, S, O>, gt: T.Table<G, A>, st: T.Table<K, S>,
      at: T.Table<K, Attr<G>>)
    requires SideOk(q, gt, st, at)
    ensures FinalAt(q, gt, st, at, T.Items(st), 0, gt, st, at)
  {
    hide T.Has, T.Get, T.Items, T.Valid, CountsOk, T.UniqueKeys;
    forall i | 0 <= i < |T.Items(st)| ensures Untouched(q, gt, st, at, T.Items(st)[i].key, gt, st, at) {
      T.HasIffStored(st, q.superHash, T.Items(st)[i].key);
    }
  }

  /** Cleaning supergroup k after its state was finalized. */
  lemma FinalOne<X, G(!new), K(!new), A, S, O>(q: Query<X, G, K, A, S, O>, gt0: T.Table<G, A>, st0: T.Table<K, S>,
      at0: T.Table<K, Attr<G>>,
      k: K, gt1: T.Table<G, A>, st1: T.Table<K, S>, at1: T.Table<K, Attr<G>>, gt: T.Table<G, A>, st: T.Table<K, S>,
      at: T.Table<K, Attr<G>>)
    requires SideOk(q, gt0, st0, at0) && Shrank(q, gt0, gt1) && SideOk(q, gt1, st1, at1)
    requires Untouched(q, gt0, st0, at0, k, gt1, st1, at1)
    requires var s := q.finalize(T.Get(st1, q.superHash, k), T.Get(at1, q.superHash, k).count);
             Cleaned(q, gt1, T.Put(st1, q.superHash, k, s), at1, k, s, true, gt, st, at)
    ensures Finalized(q, gt0, st0, at0, k, st, at)
  {
    hide T.Has, T.Get, T.Put, TablesOk, KeysOk, CountsOk, Survivors;
    var a0 := T.Get(at0, q.superHash, k);
    ListStored(q, gt0, st0, at0, k);
    SurvivorsFrame(q, gt0, gt1, a0.list, q.finalize(T.Get(st0, q.superHash, k), a0.count), true, |a0.list|);
  }

  lemma FinalOthers<X, G(!new), K(!new), A, S, O>(q: Query<X, G, K, A, S, O>, gt0: T.Table<G, A>, st0: T.Table<K, S>,
      at0: T.Table<K, Attr<G>>,
      k: K, h: K, s: S, gt1: T.Table<G, A>, st1: T.Table<K, S>, at1: T.Table<K, Attr<G>>, gt: T.Table<G, A>,
      st: T.Table<K, S>, at: T.Table<K, Attr<G>>)
    requires h != k && |st1.chains| > 0 && T.Valid(st1, q.superHash) && T.Has(st1, q.superHash, k)
    requires Cleaned(q, gt1, T.Put(st1, q.superHash, k, s), at1, k, s, true, gt, st, at)
    ensures Finalized(q, gt0, st0, at0, h, st1, at1) ==> Finalized(q, gt0, st0, at0, h, st, at)
    ensures Untouched(q, gt0, st0, at0, h, gt1, st1, at1) ==> Untouched(q, gt0, st0, at0, h, gt, st, at)
  {
    hide T.Has, T.Get, T.Put, T.Valid, Survivors, Stored;
    PutSame(st1, q.superHash, k, s);
  }

  lemma FinalFrame<X, G(!new), K(!new), A, S, O>(q: Query<X, G, K, A, S, O>, gt0: T.Table<G, A>, st0: T.Table<K, S>,
      k: K, s: S, gt1: T.Table<G, A>, st1: T.Table<K, S>, at1: T.Table<K, Attr<G>>, gt: T.Table<G, A>,
      st: T.Table<K, S>, at: T.Table<K, Attr<G>>)
    requires |st1.chains| > 0 && T.Valid(st1, q.superHash) && T.Has(st1, q.superHash, k)
    requires Shrank(q, gt0, gt1) && SameKeys(st0, st1, q.superHash)
    requires Cleaned(q, gt1, T.Put(st1, q.superHash, k, s), at1, k, s, true, gt, st, at)
    ensures Shrank(q, gt0, gt) && SameKeys(st0, st, q.superHash)
  {
    hide T.Has, T.Get, T.Put, T.Valid, Survivors, Stored;
    PutSame(st1, q.superHash, k, s);
  }

  lemma FinalNext<X, G(!new), K(!new), A, S, O>(q: Query<X, G, K, A, S, O>, gt0: T.Table<G, A>, st0: T.Table<K, S>,
      at0: T.Table<K, Attr<G>>,
      items: seq<T.Item<K, S>>, j: nat, gt1: T.Table<G, A>, st1: T.Table<K, S>, at1: T.Table<K, Attr<G>>,
      gt: T.Table<G, A>, st: T.Table<K, S>, at: T.Table<K, Attr<G>>)
    requires T.UniqueKeys(items) && j < |items| && FinalAt(q, gt0, st0, at0, items, j, gt1, st1, at1)
    requires |st1.chains| > 0 && |at1.chains| > 0 && T.Has(st1, q.superHash, items[j].key)
    requires T.Has(at1, q.superHash, items[j].key)
    requires SideOk(q, gt, st, at)
    requires var k := items[j].key;
             var s := q.finalize(T.Get(st1, q.superHash, k), T.Get(at1, q.superHash, k).count);
             Cleaned(q, gt1, T.Put(st1, q.superHash, k, s), at1, k, s, true, gt, st, at)
    ensures FinalAt(q, gt0, st0, at0, items, j + 1, gt, st, at)
  {
    hide T.Has, T.Get, T.Put, T.Valid, Cleaned, Finalized, Untouched, SideOk, Shrank, SameKeys;
    var k := items[j].key;
    var s := q.finalize(T.Get(st1, q.superHash, k), T.Get(at1, q.superHash, k).count);
    SideTables(q, gt1, st1, at1);
    assert Untouched(q, gt0, st0, at0, k, gt1, st1, at1);
    FinalOne(q, gt0, st0, at0, k, gt1, st1, at1, gt, st, at);
    FinalFrame(q, gt0, st0, k, s, gt1, st1, at1, gt, st, at);
    forall i | 0 <= i < |items| && i != j
      ensures Finalized(q, gt0, st0, at0, items[i].key, st1, at1) ==> Finalized(q, gt0, st0, at0, items[i].key, st, at)
      ensures Untouched(q, gt0, st0, at0, items[i].key, gt1, st1, at1) ==>
                Untouched(q, gt0, st0, at0, items[i].key, gt, st, at)
    {
      FinalOthers(q, gt0, st0, at0, k, items[i].key, s, gt1, st1, at1, gt, st, at);
    }
  }

  /** The count of the supergroup that the final cleaning visits last, or the given one if there is none. */
  ghost function LeftOver<X, G, K, A, S, O>(q: Query<X, G, K, A, S, O>, st: T.Table<K, S>, at: T.Table<K, Attr<G>>,
      cd: int, n: nat): int {
    if 0 < n <= |T.Items(st)| && |at.chains| > 0 && T.Has(at, q.superHash, T.Items(st)[n - 1].key)
    then T.Get(at, q.superHash, T.Items(st)[n - 1].key).count else cd
  }

  /** At the border of a window every supergroup is finalized and cleaned once, whatever the order of the table. */
  method FinalClean<X, G(==, !new), K(==, !new), A, S, O>(q: Query<X, G, K, A, S, O>, gt0: T.Table<G, A>,
      st0: T.Table<K, S>, at0: T.Table<K, Attr<G>>, cd0: int)
      returns (gt: T.Table<G, A>, st: T.Table<K, S>, at: T.Table<K, Attr<G>>, cd: int)
    requires SideOk(q, gt0, st0, at0)
    ensures SideOk(q, gt, st, at) && Shrank(q, gt0, gt) && SameKeys(st0, st, q.superHash)
    ensures |st0.chains| > 0 && forall k :: T.Has(st0, q.superHash, k) ==> Finalized(q, gt0, st0, at0, k, st, at)
    ensures cd == LeftOver(q, st0, at0, cd0, |T.Items(st0)|)
  {
    SideTables(q, gt0, st0, at0);
    hide LeftOver, T.Has, T.Get, T.Put, T.Items, T.Valid, Cleaned, Finalized, KeysOk, CountsOk, T.UniqueKeys, FinalAt;
    hide Shrank, SameKeys;
    cd := cd0;
    gt, st, at := gt0, st0, at0;
    var items := T.Items(st0);
    FinalStart(q, gt0, st0, at0);
    var j := 0;
    NoLeftOver(q, st0, at0, cd0);
    while j < |items|
      invariant 0 <= j <= |items| && FinalAt(q, gt0, st0, at0, items, j, gt, st, at)
      invariant cd == LeftOver(q, st0, at0, cd0, j)
    {
      var k := items[j].key;
      FinalTurn(q, gt0, st0, at0, cd0, items, j, gt, st, at);
      cd := T.Get(at, q.superHash, k).count;
      var s := q.finalize(T.Get(st, q.superHash, k), cd);
      PutState(q, gt, st, at, k, s);
      SideTables(q, gt, st, at);
      PutSame(st, q.superHash, k, s);
      ghost var gt1, st1, at1 := gt, st, at;
      st := T.Put(st, q.superHash, k, s);
      gt, st, at := CleanSuper(q, gt, st, at, k, true);
      FinalNext(q, gt0, st0, at0, items, j, gt1, st1, at1, gt, st, at);
      j := j + 1;
    }
    FinalEnd(q, gt0, st0, at0, gt, st, at);
  }

  lemma NoLeftOver<X, G, K, A, S, O>(q: Query<X, G, K, A, S, O>, st: T.Table<K, S>, at: T.Table<K, Attr<G>>, cd: int)
    ensures LeftOver(q, st, at, cd, 0) == cd
  {
  }

  lemma FinalTurn<X, G(!new), K(!new), A, S, O>(q: Query<X, G, K, A, S, O>, gt0: T.Table<G, A>, st0: T.Table<K, S>,
      at0: T.Table<K, Attr<G>>,
      cd: int, items: seq<T.Item<K, S>>, j: nat, gt: T.Table<G, A>, st: T.Table<K, S>, at: T.Table<K, Attr<G>>)
    requires items == T.Items(st0) && j < |items| && FinalAt(q, gt0, st0, at0, items, j, gt, st, at)
    ensures SideOk(q, gt, st, at) && |st.chains| > 0 && |at.chains| > 0
    ensures T.Has(st, q.superHash, items[j].key) && T.Has(at, q.superHash, items[j].key)
    ensures T.Get(at, q.superHash, items[j].key).count == LeftOver(q, st0, at0, cd, j + 1)
  {
    hide T.Has, T.Get, Finalized, KeysOk, CountsOk, TablesOk;
    assert Untouched(q, gt0, st0, at0, items[j].key, gt, st, at);
  }

  lemma FinalEnd<X, G(!new), K(!new), A, S, O>(q: Query<X, G, K, A, S, O>, gt0: T.Table<G, A>, st0: T.Table<K, S>,
      at0: T.Table<K, Attr<G>>,
      gt: T.Table<G, A>, st: T.Table<K, S>, at: T.Table<K, Attr<G>>)
    requires FinalAt(q, gt0, st0, at0, T.Items(st0), |T.Items(st0)|, gt, st, at)
    ensures SideOk(q, gt, st, at) && Shrank(q, gt0, gt) && SameKeys(st0, st, q.superHash) && |st0.chains| > 0
    ensures forall k :: T.Has(st0, q.superHash, k) ==> Finalized(q, gt0, st0, at0, k, st, at)
  {
    hide T.Has, T.Get, T.Items, T.Valid, Finalized, KeysOk, CountsOk, T.UniqueKeys;
    SideTables(q, gt0, st0, at0);
    forall k | T.Has(st0, q.superHash, k) ensures Finalized(q, gt0, st0, at0, k, st, at) {
      T.HasIffStored(st0, q.superHash, k);
      var i: nat :| i < |T.Items(st0)| && T.Items(st0)[i].key == k;
    }
  }
}
