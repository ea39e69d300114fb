/** The sampling operator with its three pairs of tables updated in place. */
module CleanOperators {
  import opened Options
  import opened Clean
  import opened CleanSteps
  import T = Table
  import L = TableLaws

  // ------------------------------------------------ what one tuple does to its supergroup

  /** Attributes of supergroup k before the tuple: those stored, or an empty list. */
  ghost function AttrOf<X, G, K, A, S, O>(q: Query<X, G, K, A, S, O>, at: T.Table<K, Attr<G>>, k: K): Attr<G> {
    if |at.chains| > 0 && T.Has(at, q.superHash, k) then T.Get(at, q.superHash, k) else Attr(0, [])
  }

  /**
   * The supergroup state that the predicate sees, and the count: those of the current window; else a state made from
   * the closed window's, with its count; else an initial state with the count left over.
   */
  ghost function Seen<X, G, K, A, S, O>(q: Query<X, G, K, A, S, O>, st: T.Table<K, S>, at: T.Table<K, Attr<G>>,
      oldSt: T.Table<K, S>, oldAt: T.Table<K, Attr<G>>, x: X, g: G, cd: int): (S, int)
  {
    var k := q.super(g);
    if |st.chains| > 0 && T.Has(st, q.superHash, k) then (T.Get(st, q.superHash, k), AttrOf(q, at, k).count)
    else if |oldSt.chains| > 0 && T.Has(oldSt, q.superHash, k) then
      var n := AttrOf(q, oldAt, k).count;
      (q.reinitial(x, g, T.Get(oldSt, q.superHash, k), n), n)
    else (q.initial(x, g), cd)
  }

  /**
   * The aggregate of g, and the supergroup state, after an admitted tuple: updated or created with the raised count.
   */
  ghost function Aggregate<X, G, K, A, S, O>(q: Query<X, G, K, A, S, O>, gt: T.Table<G, A>, x: X, g: G, s: S,
      n: int): (A, S) {
    if |gt.chains| > 0 && T.Has(gt, q.hash, g) then q.update(x, g, T.Get(gt, q.hash, g), s, n) else q.create(x, g, s, n)
  }

  ghost function Listed<X, G, K, A, S, O>(q: Query<X, G, K, A, S, O>, gt: T.Table<G, A>, a: Attr<G>, g: G): Attr<G> {
    if |gt.chains| > 0 && T.Has(gt, q.hash, g) then a else Attr(a.count + 1, a.list + [g])
  }

  /** The group table once the aggregate of g is a. */
  ghost function Recorded<X, G, K, A, S, O>(q: Query<X, G, K, A, S, O>, gt: T.Table<G, A>, g: G,
      a: A): (r: T.Table<G, A>)
    requires |gt.chains| > 0
    ensures |r.chains| == |gt.chains|
  {
    if T.Has(gt, q.hash, g) then T.Put(gt, q.hash, g, a) else T.Insert(gt, q.hash, g, a)
  }

  /** Supergroup k after a cleaning pass over the list l from state s. */
  ghost predicate CleanedList<X, G(!new), K(!new), A, S, O>(q: Query<X, G, K, A, S, O>, gt1: T.Table<G, A>, l: seq<G>,
      s: S, k: K,
      gt: T.Table<G, A>, st: T.Table<K, S>, at: T.Table<K, Attr<G>>)
  {
    && |gt1.chains| > 0 && Sized(gt, st, at) && T.Has(st, q.superHash, k) && T.Has(at, q.superHash, k)
    && Stored(q, gt1, l)
    && OnlyShrank(q, gt1, gt, k)
    && var r := Survivors(q, gt1, l, s, false, |l|);
       T.Get(at, q.superHash, k).list == r.0 && T.Get(st, q.superHash, k) == r.1
  }

  /** Supergroup k after the cleaning condition has been evaluated for g. */
  ghost predicate CleanedOrNot<X, G(!new), K(!new), A, S, O>(q: Query<X, G, K, A, S, O>, g: G, gt1: T.Table<G, A>, s: S,
      a: Attr<G>,
      gt: T.Table<G, A>, st: T.Table<K, S>, at: T.Table<K, Attr<G>>)
  {
    var k := q.super(g);
    var c := q.cleaning(g, s, a.count);
    if c.0 then CleanedList(q, gt1, a.list, c.1, k, gt, st, at)
    else
      && gt == gt1 && Sized(gt, st, at) && T.Has(st, q.superHash, k) && T.Has(at, q.superHash, k)
      && T.Get(st, q.superHash, k) == c.1 && T.Get(at, q.superHash, k) == a
  }

  /** All that a regular tuple does to its own supergroup. */
  ghost predicate Outcome<X, G(!new), K(!new), A, S, O>(q: Query<X, G, K, A, S, O>, x: X, g: G, cd: int,
      gt0: T.Table<G, A>, st0: T.Table<K, S>, at0: T.Table<K, Attr<G>>, oldSt: T.Table<K, S>,
      oldAt: T.Table<K, Attr<G>>,
      gt: T.Table<G, A>, st: T.Table<K, S>, at: T.Table<K, Attr<G>>)
  {
    var k := q.super(g);
    var seen := Seen(q, st0, at0, oldSt, oldAt, x, g, cd);
    var w := q.where(x, g, seen.0, seen.1);
    var a0 := AttrOf(q, at0, k);
    && |gt0.chains| > 0
    && if !w.0 then
         && gt == gt0 && Sized(gt, st, at) && T.Has(st, q.superHash, k) && T.Has(at, q.superHash, k)
         && T.Get(st, q.superHash, k) == w.1 && T.Get(at, q.superHash, k) == a0
       else
         var u := Aggregate(q, gt0, x, g, q.plus(x, g, w.1), a0.count + 1);
         CleanedOrNot(q, g, Recorded(q, gt0, g, u.0), u.1, Listed(q, gt0, a0, g), gt, st, at)
  }

  // ------------------------------------------------ admission and recording

  /**
   * Find or create the supergroup of g and evaluate the predicate.  If it holds, the superaggregates are updated and
   * the supergroup counts one group more than `base`, whose bookkeeping is exact.
   */
  method Admit<X, G(==, !new), K(==, !new), A, S, O>(q: Query<X, G, K, A, S, O>, ghost gt: T.Table<G, A>,
      st0: T.Table<K, S>, at0: T.Table<K, Attr<G>>,
      oldSt: T.Table<K, S>, oldAt: T.Table<K, Attr<G>>, x: X, g: G, cd0: int)
      returns (ok: bool, st: T.Table<K, S>, at: T.Table<K, Attr<G>>, ghost base: T.Table<K, Attr<G>>)
    requires SideOk(q, gt, st0, at0) && |oldSt.chains| > 0 && |oldAt.chains| > 0
    requires forall k :: T.Has(oldSt, q.superHash, k) <==> T.Has(oldAt, q.superHash, k)
    ensures SideOk(q, gt, st, base) && T.Has(base, q.superHash, q.super(g)) && T.Has(st, q.superHash, q.super(g))
    ensures SameBut(st0, st, q.superHash, q.super(g)) && SameBut(at0, base, q.superHash, q.super(g))
    ensures T.Get(base, q.superHash, q.super(g)) == AttrOf(q, at0, q.super(g))
    ensures var seen := Seen(q, st0, at0, oldSt, oldAt, x, g, cd0);
            var w := q.where(x, g, seen.0, seen.1);
            ok == w.0 && T.Get(st, q.superHash, q.super(g)) == if ok then q.plus(x, g, w.1) else w.1
    ensures !ok ==> at == base
    ensures ok ==>
              var a := T.Get(base, q.superHash, q.super(g));
              at == T.Put(base, q.superHash, q.super(g), Attr(a.count + 1, a.list))
  {
    hide T.Has, T.Get, T.Put, T.Insert, CountsOk, T.Valid, T.Items, T.UniqueKeys;
    var k := q.super(g);
    var cd := cd0;
    st, at := st0, at0;
    if T.Has(st, q.superHash, k) {
      cd := T.Get(at, q.superHash, k).count;
    } else {
      var s;
      if T.Has(oldSt, q.superHash, k) {
        cd := T.Get(oldAt, q.superHash, k).count;
        s := q.reinitial(x, g, T.Get(oldSt, q.superHash, k), cd);
      } else {
        s := q.initial(x, g);
      }
      NewSuperOk(q, gt, st, at, k, s);
      InsertSame(st, q.superHash, k, s);
      InsertSame(at, q.superHash, k, Attr(0, []));
      st := T.Insert(st, q.superHash, k, s);
      at := T.Insert(at, q.superHash, k, Attr(0, []));
    }
    base := at;
    var w := q.where(x, g, T.Get(st, q.superHash, k), cd);
    ok := w.0;
    st := SetState(q, gt, st, at, k, w.1);
    if ok {
      st := SetState(q, gt, st, at, k, q.plus(x, g, w.1));
      var a := T.Get(at, q.superHash, k);
      at := T.Put(at, q.superHash, k, Attr(a.count + 1, a.list));
    }
  }

  /** Change the state of supergroup k in place. */
  method SetState<X, G(==, !new), K(==, !new), A, S, O>(q: Query<X, G, K, A, S, O>, ghost gt: T.Table<G, A>,
      st0: T.Table<K, S>, ghost at: T.Table<K, Attr<G>>, k: K, s: S)
      returns (st: T.Table<K, S>)
    requires SideOk(q, gt, st0, at) && T.Has(at, q.superHash, k)
    ensures SideOk(q, gt, st, at) && SameBut(st0, st, q.superHash, k)
    ensures T.Has(st, q.superHash, k) && T.Get(st, q.superHash, k) == s
  {
    hide T.Has, T.Get, T.Put, CountsOk, T.Valid, T.Items, T.UniqueKeys;
    PutState(q, gt, st0, at, k, s);
    PutSame(st0, q.superHash, k, s);
    st := T.Put(st0, q.superHash, k, s);
  }

  /**
   * Update the aggregate of a stored group, taking back the count, or store the group and list it.  Either way the
   * bookkeeping is exact again.
   */
  method Record<X, G(==, !new), K(==, !new), A, S, O>(q: Query<X, G, K, A, S, O>, gt0: T.Table<G, A>,
      st0: T.Table<K, S>, at0: T.Table<K, Attr<G>>,
      x: X, g: G, ghost base: T.Table<K, Attr<G>>)
      returns (gt: T.Table<G, A>, st: T.Table<K, S>, at: T.Table<K, Attr<G>>)
    requires SideOk(q, gt0, st0, base) && T.Has(base, q.superHash, q.super(g))
    requires var a := T.Get(base, q.superHash, q.super(g));
             at0 == T.Put(base, q.superHash, q.super(g), Attr(a.count + 1, a.list))
    ensures SideOk(q, gt, st, at) && T.Has(gt, q.hash, g) && T.Has(at, q.superHash, q.super(g))
    ensures SameBut(gt0, gt, q.hash, g) && SameBut(st0, st, q.superHash, q.super(g))
    ensures SameBut(base, at, q.superHash, q.super(g))
    ensures T.Has(st0, q.superHash, q.super(g)) && T.Has(st, q.superHash, q.super(g))
    ensures var a := T.Get(base, q.superHash, q.super(g));
            var u := Aggregate(q, gt0, x, g, T.Get(st0, q.superHash, q.super(g)), a.count + 1);
            && gt == Recorded(q, gt0, g, u.0) && T.Get(st, q.superHash, q.super(g)) == u.1
            && T.Get(at, q.superHash, q.super(g)) == Listed(q, gt0, a, g)
  {
    hide T.Has, T.Get, T.Put, T.Insert, CountsOk, T.Valid, T.Items, T.UniqueKeys;
    var k := q.super(g);
    gt, st, at := gt0, st0, at0;
    ghost var a0 := T.Get(base, q.superHash, k);
    L.PutPut(base, q.superHash, k, Attr(a0.count + 1, a0.list), a0);
    L.PutPut(base, q.superHash, k, Attr(a0.count + 1, a0.list), Attr(a0.count + 1, a0.list + [g]));
    L.PutGet(base, q.superHash, k);
    PutSame(base, q.superHash, k, Attr(a0.count + 1, a0.list + [g]));
    var a := T.Get(at, q.superHash, k);
    if T.Has(gt, q.hash, g) {
      at := T.Put(at, q.superHash, k, Attr(a.count - 1, a.list));
      var u := q.update(x, g, T.Get(gt, q.hash, g), T.Get(st, q.superHash, k), a.count);
      PutGroup(q, gt, st, at, g, u.0);
      PutSame(gt, q.hash, g, u.0);
      gt := T.Put(gt, q.hash, g, u.0);
      st := SetState(q, gt, st, at, k, u.1);
    } else {
      var u := q.create(x, g, T.Get(st, q.superHash, k), a.count);
      StoreOk(q, gt, st, base, g, u.0);
      InsertSame(gt, q.hash, g, u.0);
      gt := T.Insert(gt, q.hash, g, u.0);
      at := T.Put(at, q.superHash, k, Attr(a.count, a.list + [g]));
      st := SetState(q, gt, st, at, k, u.1);
    }
  }

  // ------------------------------------------------ output of a closed window

  /** The tables of the closed window: same supergroups in both, and every stored group's supergroup present. */
  ghost predicate ClosedOk<X, G(!new), K(!new), A, S, O>(q: Query<X, G, K, A, S, O>, gt: T.Table<G, A>,
      st: T.Table<K, S>, at: T.Table<K, Attr<G>>) {
    TablesOk(q, gt, st, at) && Sized(gt, st, at) && KeysOk(q, gt, st, at)
  }

  /** Output of one group of the closed window, with its supergroup's state and count. */
  function Sampled<X, G, K(==), A, S, O>(q: Query<X, G, K, A, S, O>, st: T.Table<K, S>, at: T.Table<K, Attr<G>>,
      x: T.Item<G, A>): seq<O>
  {
    var k := q.super(x.key);
    if |st.chains| > 0 && |at.chains| > 0 && T.Has(st, q.superHash, k) && T.Has(at, q.superHash, k) then
      var o := q.output(x.key, x.val, T.Get(st, q.superHash, k), T.Get(at, q.superHash, k).count);
      if o.Some? then [o.value] else []
    else []
  }

  ghost function AllSampled<X, G, K, A, S, O>(q: Query<X, G, K, A, S, O>, st: T.Table<K, S>, at: T.Table<K, Attr<G>>,
      items: seq<T.Item<G, A>>): seq<O>
  {
    if items == [] then [] else AllSampled(q, st, at, items[..|items| - 1]) + Sampled(q, st, at, items[|items| - 1])
  }

  ghost function Slice<Y>(s: seq<Y>, from: int, to: int): seq<Y> {
    if 0 <= from <= to <= |s| then s[from..to] else []
  }

  lemma WholeSlice<Y>(s: seq<Y>)
    ensures Slice(s, 0, |s|) == s
  {
  }

  lemma SampledNil<X, G, K, A, S, O>(q: Query<X, G, K, A, S, O>, st: T.Table<K, S>, at: T.Table<K, Attr<G>>)
    ensures AllSampled(q, st, at, []) == []
  {
  }

  lemma {:induction false} SampledConcat<X, G, K, A, S, O>(q: Query<X, G, K, A, S, O>, st: T.Table<K, S>,
      at: T.Table<K, Attr<G>>, a: seq<T.Item<G, A>>, b: seq<T.Item<G, A>>)
    ensures AllSampled(q, st, at, a + b) == AllSampled(q, st, at, a) + AllSampled(q, st, at, b)
  {
    hide Sampled;
    if b == [] {
      assert a + b == a;
    } else {
      var n := |b| - 1;
      SampledConcat(q, st, at, a, b[..n]);
      assert (a + b)[..|a + b| - 1] == a + b[..n];
    }
  }

  lemma SampledSnoc<X, G, K, A, S, O>(q: Query<X, G, K, A, S, O>, st: T.Table<K, S>, at: T.Table<K, Attr<G>>,
      items: seq<T.Item<G, A>>, p: nat, n: nat)
    requires p <= n < |items|
    ensures AllSampled(q, st, at, Slice(items, p, n + 1))
         == AllSampled(q, st, at, Slice(items, p, n)) + Sampled(q, st, at, items[n])
  {
    hide Sampled;
    assert items[p..n + 1][..n - p] == items[p..n];
  }

  /** What one step and the drain that follows output together. */
  lemma JoinSampled<X, G, K, A, S, O>(q: Query<X, G, K, A, S, O>, st: T.Table<K, S>, at: T.Table<K, Attr<G>>,
      items: seq<T.Item<G, A>>, p: nat,
      left: seq<T.Item<G, A>>, r: nat)
    requires p <= |items| && r <= |left|
    requires var n := if p == |items| then |items| else p + 1;
             if n == |items| then left == [] else left == items && r == n
    ensures var n := if p == |items| then |items| else p + 1;
            AllSampled(q, st, at, Slice(items, p, n)) + AllSampled(q, st, at, Slice(left, r, |left|))
            == AllSampled(q, st, at, Slice(items, p, |items|))
  {
    hide AllSampled;
    var n := if p == |items| then |items| else p + 1;
    SampledConcat(q, st, at, items[p..n], left[r..|left|]);
    assert items[p..n] + left[r..|left|] == items[p..|items|];
  }

  /** The count that a closed window leaves over for a supergroup new to both windows. */
  ghost function LastCount<X, G, K, A, S, O>(q: Query<X, G, K, A, S, O>, st: T.Table<K, S>,
      at: T.Table<K, Attr<G>>): int {
    LeftOver(q, st, at, 0, |T.Items(st)|)
  }

  /** Every supergroup of a closed window was finalized and cleaned once. */
  ghost predicate WindowClosed<X, G(!new), K(!new), A, S, O>(q: Query<X, G, K, A, S, O>, gt0: T.Table<G, A>,
      st0: T.Table<K, S>, at0: T.Table<K, Attr<G>>,
      gt: T.Table<G, A>, st: T.Table<K, S>, at: T.Table<K, Attr<G>>)
  {
    && SideOk(q, gt0, st0, at0) && SideOk(q, gt, st, at) && Shrank(q, gt0, gt) && SameKeys(st0, st, q.superHash)
    && |st0.chains| > 0 && forall k :: T.Has(st0, q.superHash, k) ==> Finalized(q, gt0, st0, at0, k, st, at)
  }

  /** Every group of the closed window finds its supergroup, so an output is missing only if its creation fails. */
  lemma SupergroupFound<X, G(!new), K(!new), A, S, O>(q: Query<X, G, K, A, S, O>, gt: T.Table<G, A>, st: T.Table<K, S>,
      at: T.Table<K, Attr<G>>, x: T.Item<G, A>)
    requires ClosedOk(q, gt, st, at) && x in T.Items(gt)
    ensures T.Has(st, q.superHash, q.super(x.key)) && T.Has(at, q.superHash, q.super(x.key))
  {
    hide T.Has, T.Items, T.Valid, T.UniqueKeys;
    T.HasIffStored(gt, q.hash, x.key);
  }

  lemma ClosedEmpty<X, G(!new), K(!new), A, S, O>(q: Query<X, G, K, A, S, O>, gt: T.Table<G, A>, st: T.Table<K, S>,
      at: T.Table<K, Attr<G>>, peak: nat)
    requires ClosedOk(q, gt, st, at)
    ensures ClosedOk(q, T.Rehashed(gt, peak), st, at) && T.Items(T.Rehashed(gt, peak)) == []
  {
    RehashedEmpty(gt, q.hash, peak);
    hide T.Has, T.Items, T.Valid, T.Rehashed;
  }

  lemma RehashedEmpty<K(!new), V>(t: T.Table<K, V>, hash: K -> nat, peak: nat)
    requires T.Valid(t, hash)
    ensures |t.chains| > 0
    ensures var r := T.Rehashed(t, peak);
            |r.chains| > 0 && T.Valid(r, hash) && T.Items(r) == [] && forall k :: !T.Has(r, hash, k)
  {
    hide T.Items, T.Has;
    var r := T.Rehashed(t, peak);
    forall k ensures !T.Has(r, hash, k) { L.EmptyHas(r, hash, k); }
  }

  lemma SideIsClosed<X, G(!new), K(!new), A, S, O>(q: Query<X, G, K, A, S, O>, gt: T.Table<G, A>, st: T.Table<K, S>,
      at: T.Table<K, Attr<G>>)
    requires SideOk(q, gt, st, at)
    ensures ClosedOk(q, gt, st, at)
  {
  }

  /** If the supergroup table is empty, so is the attribute table. */
  lemma NoAttrs<X, G(!new), K(!new), A, S, O>(q: Query<X, G, K, A, S, O>, gt: T.Table<G, A>, st: T.Table<K, S>,
      at: T.Table<K, Attr<G>>)
    requires ClosedOk(q, gt, st, at) && T.Items(st) == []
    ensures T.Items(at) == []
  {
    hide T.Has, T.Items, T.Valid, T.UniqueKeys;
    if T.Items(at) != [] {
      var k := T.Items(at)[0].key;
      T.HasIffStored(at, q.superHash, k);
      L.EmptyHas(st, q.superHash, k);
    }
  }

  /** No groups and no supergroups. */
  ghost predicate Blank<G, K, A, S>(gt: T.Table<G, A>, st: T.Table<K, S>, at: T.Table<K, Attr<G>>) {
    T.Items(gt) == [] && T.Items(st) == [] && T.Items(at) == []
  }

  lemma SizedClosed<X, G(!new), K(!new), A, S, O>(q: Query<X, G, K, A, S, O>, gt: T.Table<G, A>, st: T.Table<K, S>,
      at: T.Table<K, Attr<G>>)
    requires ClosedOk(q, gt, st, at)
    ensures Sized(gt, st, at) && |gt.chains| > 0 && |st.chains| > 0 && |at.chains| > 0
    ensures T.Valid(gt, q.hash) && forall k :: T.Has(st, q.superHash, k) <==> T.Has(at, q.superHash, k)
  {
    hide T.Has, T.Valid;
  }

  lemma ClosedTables<X, G(!new), K(!new), A, S, O>(q: Query<X, G, K, A, S, O>, gt: T.Table<G, A>, st: T.Table<K, S>,
      at: T.Table<K, Attr<G>>)
    requires ClosedOk(q, gt, st, at)
    ensures T.Valid(st, q.superHash) && T.Valid(at, q.superHash) && |st.chains| > 0 && |at.chains| > 0
    ensures T.Items(st) == [] ==> T.Items(at) == []
  {
    hide T.Items, T.Valid, KeysOk, T.UniqueKeys;
    if T.Items(st) == [] { NoAttrs(q, gt, st, at); }
  }

  /** Supergroups other than k keep their state, their attributes and their groups. */
  ghost predicate OthersKept<X, G(!new), K(!new), A, S, O>(q: Query<X, G, K, A, S, O>, k: K, gt0: T.Table<G, A>,
      st0: T.Table<K, S>, at0: T.Table<K, Attr<G>>,
      gt: T.Table<G, A>, st: T.Table<K, S>, at: T.Table<K, Attr<G>>)
  {
    && Sized(gt0, st0, at0) && Sized(gt, st, at) && SameBut(st0, st, q.superHash, k) && SameBut(at0, at, q.superHash, k)
    && forall g :: q.super(g) != k ==>
         && (T.Has(gt, q.hash, g) <==> T.Has(gt0, q.hash, g))
         && (T.Has(gt0, q.hash, g) ==> T.Get(gt, q.hash, g) == T.Get(gt0, q.hash, g))
  }

  lemma KeptAdmit<X, G(!new), K(!new), A, S, O>(q: Query<X, G, K, A, S, O>, k: K, gt: T.Table<G, A>, st0: T.Table<K, S>,
      at0: T.Table<K, Attr<G>>,
      st: T.Table<K, S>, at: T.Table<K, Attr<G>>)
    requires Sized(gt, st0, at0) && Sized(gt, st, at) && SameBut(st0, st, q.superHash, k)
    requires SameBut(at0, at, q.superHash, k)
    ensures OthersKept(q, k, gt, st0, at0, gt, st, at)
  {
    hide T.Has, T.Get;
  }

  lemma KeptRecord<X, G(!new), K(!new), A, S, O>(q: Query<X, G, K, A, S, O>, g: G, gt0: T.Table<G, A>,
      st0: T.Table<K, S>, at0: T.Table<K, Attr<G>>,
      st1: T.Table<K, S>, at1: T.Table<K, Attr<G>>, gt: T.Table<G, A>, st: T.Table<K, S>, at: T.Table<K, Attr<G>>)
    requires OthersKept(q, q.super(g), gt0, st0, at0, gt0, st1, at1) && Sized(gt, st, at)
    requires SameBut(gt0, gt, q.hash, g) && SameBut(st1, st, q.superHash, q.super(g))
    requires SameBut(at1, at, q.superHash, q.super(g))
    ensures OthersKept(q, q.super(g), gt0, st0, at0, gt, st, at)
  {
    hide T.Has, T.Get;
  }

  lemma KeptState<X, G(!new), K(!new), A, S, O>(q: Query<X, G, K, A, S, O>, k: K, gt0: T.Table<G, A>,
      st0: T.Table<K, S>, at0: T.Table<K, Attr<G>>,
      gt: T.Table<G, A>, st1: T.Table<K, S>, at: T.Table<K, Attr<G>>, st: T.Table<K, S>)
    requires OthersKept(q, k, gt0, st0, at0, gt, st1, at) && Sized(gt, st, at) && SameBut(st1, st, q.superHash, k)
    ensures OthersKept(q, k, gt0, st0, at0, gt, st, at)
  {
    hide T.Has, T.Get;
  }

  lemma KeptClean<X, G(!new), K(!new), A, S, O>(q: Query<X, G, K, A, S, O>, k: K, gt0: T.Table<G, A>,
      st0: T.Table<K, S>, at0: T.Table<K, Attr<G>>,
      gt1: T.Table<G, A>, st1: T.Table<K, S>, at1: T.Table<K, Attr<G>>, s: S, final: bool, gt: T.Table<G, A>,
      st: T.Table<K, S>, at: T.Table<K, Attr<G>>)
    requires OthersKept(q, k, gt0, st0, at0, gt1, st1, at1) && Cleaned(q, gt1, st1, at1, k, s, final, gt, st, at)
    ensures OthersKept(q, k, gt0, st0, at0, gt, st, at)
  {
    hide T.Has, T.Get, Survivors, Stored;
  }

  lemma CleanedIsList<X, G(!new), K(!new), A, S, O>(q: Query<X, G, K, A, S, O>, k: K, gt1: T.Table<G, A>,
      st1: T.Table<K, S>, at1: T.Table<K, Attr<G>>,
      s: S, gt: T.Table<G, A>, st: T.Table<K, S>, at: T.Table<K, Attr<G>>)
    requires Cleaned(q, gt1, st1, at1, k, s, false, gt, st, at)
    ensures |at1.chains| > 0 && T.Has(at1, q.superHash, k)
    ensures CleanedList(q, gt1, T.Get(at1, q.superHash, k).list, s, k, gt, st, at)
  {
    hide T.Has, T.Get, Survivors, Stored, OnlyShrank, SameBut;
  }

  lemma CleanedSmaller<X, G(!new), K(!new), A, S, O>(q: Query<X, G, K, A, S, O>, gt1: T.Table<G, A>, st1: T.Table<K, S>,
      at1: T.Table<K, Attr<G>>,
      k: K, s: S, gt: T.Table<G, A>, st: T.Table<K, S>, at: T.Table<K, Attr<G>>)
    requires SideOk(q, gt1, st1, at1) && SideOk(q, gt, st, at) && Cleaned(q, gt1, st1, at1, k, s, false, gt, st, at)
    ensures |T.Items(gt)| <= |T.Items(gt1)|
  {
    hide T.Has, T.Get, T.Items, T.Valid, KeysOk, CountsOk, Survivors, Stored, SameBut, T.UniqueKeys;
    L.Smaller(gt1, gt, q.hash);
  }

  lemma ShrankSmaller<X, G(!new), K(!new), A, S, O>(q: Query<X, G, K, A, S, O>, gt0: T.Table<G, A>, st0: T.Table<K, S>,
      at0: T.Table<K, Attr<G>>,
      gt: T.Table<G, A>, st: T.Table<K, S>, at: T.Table<K, Attr<G>>)
    requires SideOk(q, gt0, st0, at0) && SideOk(q, gt, st, at) && Shrank(q, gt0, gt)
    ensures |T.Items(gt)| <= |T.Items(gt0)|
  {
    hide T.Has, T.Get, T.Items, T.Valid, KeysOk, CountsOk, T.UniqueKeys;
    L.Smaller(gt0, gt, q.hash);
  }

  /** The size of the group table at its largest while the tuple is processed: after the group is recorded. */
  ghost function TopSize<X, G(!new), K(!new), A, S, O>(q: Query<X, G, K, A, S, O>, x: X, g: G, cd: int,
      gt0: T.Table<G, A>, st0: T.Table<K, S>, at0: T.Table<K, Attr<G>>,
      oldSt: T.Table<K, S>, oldAt: T.Table<K, Attr<G>>): nat
  {
    var seen := Seen(q, st0, at0, oldSt, oldAt, x, g, cd);
    var w := q.where(x, g, seen.0, seen.1);
    if w.0 && |gt0.chains| > 0 then
      |T.Items(Recorded(q, gt0, g, Aggregate(q, gt0, x, g, q.plus(x, g, w.1), AttrOf(q, at0, q.super(g)).count + 1).0))|
    else |T.Items(gt0)|
  }

  lemma TopIs<X, G(!new), K(!new), A, S, O>(q: Query<X, G, K, A, S, O>, x: X, g: G, cd: int,
      gt0: T.Table<G, A>, st0: T.Table<K, S>, at0: T.Table<K, Attr<G>>, oldSt: T.Table<K, S>,
      oldAt: T.Table<K, Attr<G>>)
    requires |gt0.chains| > 0
    ensures var seen := Seen(q, st0, at0, oldSt, oldAt, x, g, cd);
            var w := q.where(x, g, seen.0, seen.1);
            var u := Aggregate(q, gt0, x, g, q.plus(x, g, w.1), AttrOf(q, at0, q.super(g)).count + 1);
            TopSize(q, x, g, cd, gt0, st0, at0, oldSt, oldAt)
            == |T.Items(if w.0 then Recorded(q, gt0, g, u.0) else gt0)|
  {
    hide T.Items, Seen, Aggregate, AttrOf, Recorded;
  }

  /** Clean the supergroup of g when the cleaning condition asks for it. */
  method MaybeClean<X, G(==, !new), K(==, !new), A, S, O>(q: Query<X, G, K, A, S, O>, gt1: T.Table<G, A>,
      st1: T.Table<K, S>, at1: T.Table<K, Attr<G>>,
      g: G, ghost gt0: T.Table<G, A>, ghost st0: T.Table<K, S>, ghost at0: T.Table<K, Attr<G>>)
      returns (gt: T.Table<G, A>, st: T.Table<K, S>, at: T.Table<K, Attr<G>>)
    requires SideOk(q, gt1, st1, at1) && T.Has(at1, q.superHash, q.super(g))
    requires OthersKept(q, q.super(g), gt0, st0, at0, gt1, st1, at1)
    ensures SideOk(q, gt, st, at) && OthersKept(q, q.super(g), gt0, st0, at0, gt, st, at)
    ensures |st1.chains| > 0 && T.Has(st1, q.superHash, q.super(g))
    ensures CleanedOrNot(q, g, gt1, T.Get(st1, q.superHash, q.super(g)), T.Get(at1, q.superHash, q.super(g)),
                         gt, st, at)
    ensures |T.Items(gt)| <= |T.Items(gt1)|
  {
    var k := q.super(g);
    ListStored(q, gt1, st1, at1, k);
    SizedSide(q, gt1, st1, at1);
    hide T.Items, T.Has, T.Get, OthersKept, SideOk, Stored, Cleaned, CleanedList;
    gt, st, at := gt1, st1, at1;
    var d := q.cleaning(g, T.Get(st, q.superHash, k), T.Get(at, q.superHash, k).count);
    st := SetState(q, gt, st, at, k, d.1);
    SizedSide(q, gt, st, at);
    KeptState(q, k, gt0, st0, at0, gt, st1, at, st);
    if d.0 {
      ghost var st2 := st;
      gt, st, at := CleanSuper(q, gt, st, at, k, false);
      KeptClean(q, k, gt0, st0, at0, gt1, st2, at1, T.Get(st2, q.superHash, k), false, gt, st, at);
      CleanedIsList(q, k, gt1, st2, at1, T.Get(st2, q.superHash, k), gt, st, at);
      CleanedSmaller(q, gt1, st2, at1, k, T.Get(st2, q.superHash, k), gt, st, at);
    }
  }

  /** Admit a regular tuple, record its group, and clean its supergroup if asked to. */
  method TakeTuple<X, G(==, !new), K(==, !new), A, S, O>(q: Query<X, G, K, A, S, O>, gt0: T.Table<G, A>,
      st0: T.Table<K, S>, at0: T.Table<K, Attr<G>>,
      oldSt: T.Table<K, S>, oldAt: T.Table<K, Attr<G>>, x: X, g: G, cd: int)
      returns (gt: T.Table<G, A>, st: T.Table<K, S>, at: T.Table<K, Attr<G>>, size: nat)
    requires SideOk(q, gt0, st0, at0) && |oldSt.chains| > 0 && |oldAt.chains| > 0
    requires forall k :: T.Has(oldSt, q.superHash, k) <==> T.Has(oldAt, q.superHash, k)
    ensures SideOk(q, gt, st, at) && OthersKept(q, q.super(g), gt0, st0, at0, gt, st, at)
    ensures Outcome(q, x, g, cd, gt0, st0, at0, oldSt, oldAt, gt, st, at)
    ensures |T.Items(gt)| <= size == TopSize(q, x, g, cd, gt0, st0, at0, oldSt, oldAt)
  {
    hide T.Items, TopSize, T.Has, T.Get, T.Put, SideOk, OthersKept, CleanedOrNot, Recorded, Seen, AttrOf, Aggregate;
    hide Listed, Outcome, SameBut;
    SizedSide(q, gt0, st0, at0);
    var ok: bool;
    ghost var base: T.Table<K, Attr<G>>;
    ok, st, at, base := Admit(q, gt0, st0, at0, oldSt, oldAt, x, g, cd);
    gt := gt0;
    size := |T.Items(gt)|;
    TopIs(q, x, g, cd, gt0, st0, at0, oldSt, oldAt);
    SizedSide(q, gt, st, base);
    KeptAdmit(q, q.super(g), gt, st0, at0, st, base);
    if ok {
      ghost var st1 := st;
      gt, st, at := Record(q, gt, st, at, x, g, base);
      SizedSide(q, gt, st, at);
      KeptRecord(q, g, gt0, st0, at0, st1, base, gt, st, at);
      size := |T.Items(gt)|;
      gt, st, at := MaybeClean(q, gt, st, at, g, gt0, st0, at0);
      OutcomeTaken(q, x, g, cd, gt0, st0, at0, oldSt, oldAt, gt, st, at);
    } else {
      OutcomeRejected(q, x, g, cd, gt0, st0, at0, oldSt, oldAt, st, at);
    }
  }

  lemma OutcomeRejected<X, G(!new), K(!new), A, S, O>(q: Query<X, G, K, A, S, O>, x: X, g: G, cd: int,
      gt: T.Table<G, A>, st0: T.Table<K, S>, at0: T.Table<K, Attr<G>>, oldSt: T.Table<K, S>, oldAt: T.Table<K, Attr<G>>,
      st: T.Table<K, S>, at: T.Table<K, Attr<G>>)
    requires Sized(gt, st, at) && T.Has(st, q.superHash, q.super(g)) && T.Has(at, q.superHash, q.super(g))
    requires var seen := Seen(q, st0, at0, oldSt, oldAt, x, g, cd);
             var w := q.where(x, g, seen.0, seen.1);
             !w.0 && T.Get(st, q.superHash, q.super(g)) == w.1
    requires T.Get(at, q.superHash, q.super(g)) == AttrOf(q, at0, q.super(g))
    ensures Outcome(q, x, g, cd, gt, st0, at0, oldSt, oldAt, gt, st, at)
  {
    hide T.Has, T.Get, Seen, AttrOf;
  }

  lemma OutcomeTaken<X, G(!new), K(!new), A, S, O>(q: Query<X, G, K, A, S, O>, x: X, g: G, cd: int,
      gt0: T.Table<G, A>, st0: T.Table<K, S>, at0: T.Table<K, Attr<G>>, oldSt: T.Table<K, S>,
      oldAt: T.Table<K, Attr<G>>,
      gt: T.Table<G, A>, st: T.Table<K, S>, at: T.Table<K, Attr<G>>)
    requires |gt0.chains| > 0
    requires var seen := Seen(q, st0, at0, oldSt, oldAt, x, g, cd);
             var w := q.where(x, g, seen.0, seen.1);
             var a0 := AttrOf(q, at0, q.super(g));
             var u := Aggregate(q, gt0, x, g, q.plus(x, g, w.1), a0.count + 1);
             w.0 && CleanedOrNot(q, g, Recorded(q, gt0, g, u.0), u.1, Listed(q, gt0, a0, g), gt, st, at)
    ensures Outcome(q, x, g, cd, gt0, st0, at0, oldSt, oldAt, gt, st, at)
  {
    hide T.Has, T.Get, Seen, AttrOf, Aggregate, Recorded, Listed, CleanedOrNot;
  }

  const FLUSH_PER_TUPLE: nat := 1

  class CleanOperator<X, G(==, !new), K(==, !new), A, S, O> {
    const q: Query<X, G, K, A, S, O>
    var groups: seq<T.Table<G, A>>
    var supers: seq<T.Table<K, S>>
    var attrs: seq<T.Table<K, Attr<G>>>
    var currTable: nat
    var currSuper: nat
    var currAttr: nat
    var finished: bool
    var pos: nat
    /** Largest size of each group table since it was last rehashed. */
    var peak: seq<nat>

    ghost predicate Shape()
      reads this
    {
      |groups| == |supers| == |attrs| == |peak| == 2 && currTable == currSuper == currAttr < 2
    }

    /** The three indices agree; the tables in use have exact bookkeeping; the closed window's tables are consistent. */
    ghost predicate Valid()
      reads this
    {
      && Shape()
      && SideOk(q, groups[currTable], supers[currTable], attrs[currTable])
      && ClosedOk(q, groups[1 - currTable], supers[1 - currTable], attrs[1 - currTable])
      && (finished ==> T.Items(groups[1 - currTable]) == [])
      && pos <= |T.Items(groups[1 - currTable])|
      && |T.Items(groups[0])| <= peak[0] && |T.Items(groups[1])| <= peak[1]
    }

    lemma ValidShape()
      requires Valid()
      ensures Shape()
    {
    }

    constructor (q: Query<X, G, K, A, S, O>)
      ensures Valid() && this.q == q && finished && Left() == []
      ensures forall i :: 0 <= i < 2 ==> Blank(groups[i], supers[i], attrs[i])
    {
      this.q := q;
      groups := [T.Empty(T.BUCKETS), T.Empty(T.BUCKETS)];
      supers := [T.Empty(T.BUCKETS), T.Empty(T.BUCKETS)];
      attrs := [T.Empty(T.BUCKETS), T.Empty(T.BUCKETS)];
      currTable, currSuper, currAttr, finished, pos, peak := 0, 0, 0, true, 0, [0, 0];
      EmptySide(q, T.Empty(T.BUCKETS), T.Empty(T.BUCKETS), T.Empty(T.BUCKETS));
      SideIsClosed(q, T.Empty(T.BUCKETS), T.Empty(T.BUCKETS), T.Empty(T.BUCKETS));
      hide SideOk, ClosedOk;
    }

    /** The output that is still due for the closed window. */
    ghost function Left(): seq<O>
      reads this
    {
      if Shape() then
        var o := 1 - currTable;
        AllSampled(q, supers[o], attrs[o], Slice(T.Items(groups[o]), pos, |T.Items(groups[o])|))
      else []
    }

    /** Output groups of the closed window from flush_pos on, at most `limit` of them. */
    method Emit(limit: nat) returns (out: seq<O>)
      requires Valid()
      modifies this`pos
      ensures var o := 1 - currTable;
              var items := T.Items(groups[o]);
              && pos == (if old(pos) + limit <= |items| then old(pos) + limit else |items|)
              && out == AllSampled(q, supers[o], attrs[o], Slice(items, old(pos), pos))
    {
      hide T.Items, SideOk, ClosedOk, Sampled, AllSampled;
      var o := 1 - currTable;
      var items := T.Items(groups[o]);
      out := [];
      var i := 0;
      assert items[pos..pos] == [];
      SampledNil(q, supers[o], attrs[o]);
      while pos < |items| && i < limit
        invariant old(pos) <= pos <= |items| && pos == old(pos) + i && i <= limit
        invariant out == AllSampled(q, supers[o], attrs[o], Slice(items, old(pos), pos))
      {
        SampledSnoc(q, supers[o], attrs[o], items, old(pos), pos);
        out := out + Sampled(q, supers[o], attrs[o], items[pos]);
        pos, i := pos + 1, i + 1;
      }
    }

    method ClearGroups()
      requires Valid()
      modifies this`groups, this`pos, this`peak
      ensures Valid() && pos == 0 && peak == old(peak)[1 - currTable := 0] && T.Items(groups[1 - currTable]) == []
      ensures |old(groups)[1 - currTable].chains| > 0
      ensures groups == old(groups)[1 - currTable := T.Rehashed(old(groups)[1 - currTable], old(peak)[1 - currTable])]
    {
      hide SideOk, ClosedOk, T.Items;
      var o := 1 - currTable;
      ClosedEmpty(q, groups[o], supers[o], attrs[o], peak[o]);
      SizedClosed(q, groups[o], supers[o], attrs[o]);
      groups, pos, peak := groups[o := T.Rehashed(groups[o], peak[o])], 0, peak[o := 0];
    }

    method PartialFlush() returns (out: seq<O>)
      requires Valid()
      modifies this`groups, this`pos, this`finished, this`peak
      ensures Valid() && groups[currTable] == old(groups)[currTable] && peak[currTable] == old(peak)[currTable]
      ensures var o := 1 - currTable;
              var items := T.Items(old(groups)[o]);
              var n := if old(pos) < |items| then old(pos) + 1 else old(pos);
              && out == AllSampled(q, supers[o], attrs[o], Slice(items, old(pos), n))
              && (if n == |items| then T.Items(groups[o]) == [] && pos == 0
                  else T.Items(groups[o]) == items && pos == n)
    {
      hide SideOk, ClosedOk, T.Items, AllSampled;
      var size := |T.Items(groups[1 - currTable])|;
      out := Emit(FLUSH_PER_TUPLE);
      if pos == size {
        ClearGroups();
        finished := true;
      }
    }

    /** Drain the closed window's groups and swap the group tables; the other tables follow in SuperFlush. */
    method Flush() returns (out: seq<O>)
      requires Shape() && Valid()
      modifies this`groups, this`pos, this`finished, this`currTable, this`peak
      ensures out == old(Left()) && currTable == 1 - old(currTable) && !finished && pos == 0
      ensures |groups| == |peak| == 2
      ensures var c := old(currTable); groups[c] == old(groups)[c] && peak[c] == old(peak)[c]
      ensures peak[currTable] == if T.Items(old(groups)[currTable]) == [] then old(peak)[currTable] else 0
      ensures T.Valid(groups[currTable], q.hash) && T.Items(groups[currTable]) == []
    {
      hide SideOk, T.Items, AllSampled, T.Valid, KeysOk, T.UniqueKeys;
      var o := 1 - currTable;
      ghost var items := T.Items(groups[o]);
      assert items[pos..|items|] == items[pos..];
      out := Emit(|T.Items(groups[o])|);
      if |T.Items(groups[o])| > 0 {
        ClearGroups();
      }
      pos, currTable, finished := 0, o, false;
    }

    /** Forget the supergroups of the window before the last and swap both supergroup tables. */
    method SuperFlush()
      requires |supers| == |attrs| == 2 && currSuper == currAttr < 2
      requires T.Valid(supers[1 - currSuper], q.superHash) && T.Valid(attrs[1 - currSuper], q.superHash)
      requires T.Items(supers[1 - currSuper]) == [] ==> T.Items(attrs[1 - currSuper]) == []
      modifies this`supers, this`attrs, this`currSuper, this`currAttr
      ensures var c, o := old(currSuper), 1 - old(currSuper);
              && currSuper == currAttr == o && |supers| == |attrs| == 2
              && supers[c] == old(supers)[c] && attrs[c] == old(attrs)[c]
              && T.Valid(supers[o], q.superHash) && T.Items(supers[o]) == []
              && T.Valid(attrs[o], q.superHash) && T.Items(attrs[o]) == []
    {
      hide T.Items, T.Rehashed, T.Valid;
      var o := 1 - currSuper;
      RehashedEmpty(supers[o], q.superHash, |T.Items(supers[o])|);
      RehashedEmpty(attrs[o], q.superHash, |T.Items(attrs[o])|);
      if |T.Items(supers[o])| > 0 {
        supers := supers[o := T.Cleared(supers[o])];
        attrs := attrs[o := T.Cleared(attrs[o])];
      }
      currSuper, currAttr := o, o;
    }

    /** Close the current window: all three table indices swap together and the new window starts empty. */
    method Rotate() returns (out: seq<O>)
      requires Valid()
      modifies this
      ensures Valid() && currTable == 1 - old(currTable) && !finished && pos == 0
      ensures var c, o := old(currTable), 1 - old(currTable);
              && groups[c] == old(groups)[c] && supers[c] == old(supers)[c] && attrs[c] == old(attrs)[c]
              && T.Items(groups[o]) == [] && T.Items(supers[o]) == [] && T.Items(attrs[o]) == []
              && out == AllSampled(q, old(supers)[o], old(attrs)[o],
                  Slice(T.Items(old(groups)[o]), old(pos), |T.Items(old(groups)[o])|))
    {
      hide SideOk, ClosedOk, T.Items, T.Valid, AllSampled;
      ghost var c, o := currTable, 1 - currTable;
      SideIsClosed(q, groups[c], supers[c], attrs[c]);
      ClosedTables(q, groups[o], supers[o], attrs[o]);
      out := Flush();
      SuperFlush();
      EmptySide(q, groups[o], supers[o], attrs[o]);
    }

    /**
     * One input tuple; `needs` is the functor's flush indicator.  Every step keeps the bookkeeping exact, the table
     * indices swap exactly when a flush is needed, and without a flush only the tuple's own supergroup can change.
     */
    method AcceptTuple(x: X, needs: bool) returns (out: seq<O>)
      requires Valid()
      modifies this
      ensures Valid() && (currTable != old(currTable) <==> needs)
      ensures !needs ==>
                && supers[1 - currTable] == old(supers)[1 - currTable]
                && attrs[1 - currTable] == old(attrs)[1 - currTable]
      ensures !needs && q.group(x).None? ==>
                groups[currTable] == old(groups)[currTable] && supers == old(supers) && attrs == old(attrs)
      ensures !needs && q.group(x).Some? ==>
                OthersKept(q, q.super(q.group(x).value),
                           old(groups)[currTable], old(supers)[currTable], old(attrs)[currTable],
                           groups[currTable], supers[currTable], attrs[currTable])
      ensures !needs && q.group(x).Some? ==>
                Outcome(q, x, q.group(x).value, 0,
                        old(groups)[currTable], old(supers)[currTable], old(attrs)[currTable],
                        supers[1 - currTable], attrs[1 - currTable],
                        groups[currTable], supers[currTable], attrs[currTable])
      ensures needs ==>
                var c := old(currTable);
                WindowClosed(q, old(groups)[c], old(supers)[c], old(attrs)[c], groups[c], supers[c], attrs[c])
      ensures needs && q.group(x).None? ==> Blank(groups[currTable], supers[currTable], attrs[currTable])
      ensures needs && q.group(x).Some? ==>
                var cd := LastCount(q, old(supers)[old(currTable)], old(attrs)[old(currTable)]);
                exists gt0, st0, at0 ::
                  && Blank(gt0, st0, at0) && SideOk(q, gt0, st0, at0)
                  && Outcome(q, x, q.group(x).value, cd, gt0, st0, at0, supers[1 - currTable], attrs[1 - currTable],
                             groups[currTable], supers[currTable], attrs[currTable])
                  && OthersKept(q, q.super(q.group(x).value), gt0, st0, at0,
                                groups[currTable], supers[currTable], attrs[currTable])
      ensures !needs ==> out + Left() == old(Left())
      ensures needs ==>
                var c := old(currTable);
                out == old(Left()) && Left() == AllSampled(q, supers[c], attrs[c], T.Items(groups[c]))
      ensures var o := 1 - old(currTable);
              var items := T.Items(old(groups)[o]);
              && out == AllSampled(q, old(supers)[o], old(attrs)[o],
                  Slice(items, old(pos), if needs || old(pos) == |items| then |items| else old(pos) + 1))
    {
      hide SideOk, ClosedOk, T.Items, AllSampled, OthersKept, WindowClosed, Slice, Outcome, LastCount, Blank;
      var cd;
      out, cd := Advance(needs);
      match q.group(x) {
        case None =>
        case Some(g) => Take(x, g, cd);
      }
    }

    /**
     * Output one old group; if a flush is needed, close the current window and output all that is left of the old
     * one.
     */
    method Advance(needs: bool) returns (out: seq<O>, cd: int)
      requires Valid()
      modifies this
      ensures Valid() && (currTable != old(currTable) <==> needs)
      ensures !needs ==> groups[currTable] == old(groups)[currTable] && supers == old(supers) && attrs == old(attrs)
      ensures !needs ==> cd == 0
      ensures needs ==>
                var c := old(currTable);
                && WindowClosed(q, old(groups)[c], old(supers)[c], old(attrs)[c], groups[c], supers[c], attrs[c])
                && cd == LastCount(q, old(supers)[c], old(attrs)[c])
                && Blank(groups[1 - c], supers[1 - c], attrs[1 - c])
      ensures var o := 1 - old(currTable);
              var items := T.Items(old(groups)[o]);
              out == AllSampled(q, old(supers)[o], old(attrs)[o],
                  Slice(items, old(pos), if needs || old(pos) == |items| then |items| else old(pos) + 1))
      ensures !needs ==> out + Left() == old(Left())
      ensures needs ==>
                var c := old(currTable);
                out == old(Left()) && Left() == AllSampled(q, supers[c], attrs[c], T.Items(groups[c]))
    {
      hide SideOk, ClosedOk, T.Items, AllSampled, WindowClosed, Slice, LastCount;
      ghost var c, o := currTable, 1 - currTable;
      out := Evict();
      cd := 0;
      JoinSampled(q, old(supers)[o], old(attrs)[o], T.Items(old(groups)[o]), old(pos), T.Items(groups[o]), pos);
      if needs {
        cd := CloseWindow();
        var more := Rotate();
        out := out + more;
        WholeSlice(T.Items(groups[c]));
      }
    }

    /** Push out one group of the closed window, if a flush is under way. */
    method Evict() returns (out: seq<O>)
      requires Valid()
      modifies this`groups, this`pos, this`finished, this`peak
      ensures Valid() && groups[currTable] == old(groups)[currTable] && peak[currTable] == old(peak)[currTable]
      ensures var o := 1 - currTable;
              var items := T.Items(old(groups)[o]);
              var n := if old(pos) == |items| then |items| else old(pos) + 1;
              && out == AllSampled(q, supers[o], attrs[o], Slice(items, old(pos), n))
              && (if n == |items| then T.Items(groups[o]) == [] && pos == 0
                  else T.Items(groups[o]) == items && pos == n)
    {
      hide SideOk, ClosedOk, T.Items, AllSampled;
      ghost var o := 1 - currTable;
      SizedClosed(q, groups[o], supers[o], attrs[o]);
      assert T.Items(groups[o])[pos..pos] == [];
      out := [];
      SampledNil(q, supers[o], attrs[o]);
      if !finished {
        out := PartialFlush();
      }
    }

    /** The final cleaning of the current window. */
    method CloseWindow() returns (cd: int)
      requires Valid()
      modifies this`groups, this`supers, this`attrs
      ensures Valid()
      ensures groups == old(groups)[currTable := groups[currTable]]
      ensures supers == old(supers)[currTable := supers[currTable]]
      ensures attrs == old(attrs)[currTable := attrs[currTable]]
      ensures WindowClosed(q, old(groups)[currTable], old(supers)[currTable], old(attrs)[currTable],
                           groups[currTable], supers[currTable], attrs[currTable])
      ensures cd == LastCount(q, old(supers)[currTable], old(attrs)[currTable])
    {
      hide LeftOver, SideOk, ClosedOk, T.Items, T.Has, Finalized, Shrank, SameKeys;
      var gt, st, at;
      gt, st, at, cd := FinalClean(q, groups[currTable], supers[currTable], attrs[currTable], 0);
      ShrankSmaller(q, groups[currTable], supers[currTable], attrs[currTable], gt, st, at);
      Install(gt, st, at);
    }

    /** Replace the tables in use. */
    method Install(gt: T.Table<G, A>, st: T.Table<K, S>, at: T.Table<K, Attr<G>>)
      requires Valid() && SideOk(q, gt, st, at) && |T.Items(gt)| <= peak[currTable]
      modifies this`groups, this`supers, this`attrs
      ensures Valid()
      ensures groups == old(groups)[currTable := gt] && supers == old(supers)[currTable := st]
      ensures attrs == old(attrs)[currTable := at]
    {
      hide SideOk, ClosedOk, T.Items;
      groups, supers, attrs := groups[currTable := gt], supers[currTable := st], attrs[currTable := at];
    }

    /** Admit a regular tuple, record its group, and clean its supergroup if asked to. */
    method Take(x: X, g: G, cd: int)
      requires Valid()
      modifies this`groups, this`supers, this`attrs, this`peak
      ensures Valid() && groups[1 - currTable] == old(groups)[1 - currTable]
      ensures var top := TopSize(q, x, g, cd, old(groups)[currTable], old(supers)[currTable], old(attrs)[currTable],
                                 supers[1 - currTable], attrs[1 - currTable]);
              peak == old(peak)[currTable := if top > old(peak)[currTable] then top else old(peak)[currTable]]
      ensures supers[1 - currTable] == old(supers)[1 - currTable] && attrs[1 - currTable] == old(attrs)[1 - currTable]
      ensures OthersKept(q, q.super(g), old(groups)[currTable], old(supers)[currTable], old(attrs)[currTable],
                         groups[currTable], supers[currTable], attrs[currTable])
      ensures Outcome(q, x, g, cd, old(groups)[currTable], old(supers)[currTable], old(attrs)[currTable],
                      supers[1 - currTable], attrs[1 - currTable],
                      groups[currTable], supers[currTable], attrs[currTable])
      ensures Left() == old(Left())
    {
      hide SideOk, ClosedOk, T.Items, T.Has, OthersKept, Outcome, TopSize, AllSampled, Slice;
      var c, o := currTable, 1 - currTable;
      SizedClosed(q, groups[o], supers[o], attrs[o]);
      var gt, st, at, size := TakeTuple(q, groups[c], supers[c], attrs[c], supers[o], attrs[o], x, g, cd);
      peak := peak[c := if size > peak[c] then size else peak[c]];
      Install(gt, st, at);
    }
  }
}
