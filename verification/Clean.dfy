/** The sampling operator's bookkeeping: groups, their supergroups, and the list and count kept per supergroup. */
module Clean {
  import opened Options
  import T = Table
  import L = TableLaws

  /**
   * The generated functor.  A supergroup key is part of a group key.  Functions that receive a supergroup state may
   * change it, so they return it.
   */
  datatype Query<!X, !G, !K, !A, !S, O> = Query(
    group: X -> Option<G>,
    super: G -> K,
    initial: (X, G) -> S,
    reinitial: (X, G, S, int) -> S,
    where: (X, G, S, int) -> (bool, S),
    plus: (X, G, S) -> S,
    minus: (G, A, S) -> S,
    finalize: (S, int) -> S,
    create: (X, G, S, int) -> (A, S),
    update: (X, G, A, S, int) -> (A, S),
    cleaning: (G, S, int) -> (bool, S),
    sample: (bool, G, A, S, int) -> (bool, S),
    output: (G, A, S, int) -> Option<O>,
    hash: G -> nat,
    superHash: K -> nat)

  /** count_distinct and the list of groups of a supergroup. */
  datatype Attr<+G> = Attr(count: int, list: seq<G>)

  /** The count is the length of the list, and the list is exactly the supergroup's groups in the group table. */
  ghost predicate AttrOk<X, G(!new), K, A, S, O>(q: Query<X, G, K, A, S, O>, gt: T.Table<G, A>, a: Attr<G>, k: K)
    requires |gt.chains| > 0
  {
    && a.count == |a.list| && T.NoDup(a.list)
    && forall g :: g in a.list <==> T.Has(gt, q.hash, g) && q.super(g) == k
  }

  ghost predicate TablesOk<X, G, K, A, S, O>(q: Query<X, G, K, A, S, O>, gt: T.Table<G, A>, st: T.Table<K, S>,
      at: T.Table<K, Attr<G>>) {
    && T.Valid(gt, q.hash) && T.UniqueKeys(T.Items(gt))
    && T.Valid(st, q.superHash) && T.UniqueKeys(T.Items(st))
    && T.Valid(at, q.superHash)
  }

  ghost predicate Sized<G, K, A, S>(gt: T.Table<G, A>, st: T.Table<K, S>, at: T.Table<K, Attr<G>>) {
    |gt.chains| > 0 && |st.chains| > 0 && |at.chains| > 0
  }

  /** Supergroup and attribute tables have the same keys, and every group's supergroup is among them. */
  ghost predicate KeysOk<X, G(!new), K(!new), A, S, O>(q: Query<X, G, K, A, S, O>, gt: T.Table<G, A>, st: T.Table<K, S>,
      at: T.Table<K, Attr<G>>)
    requires Sized(gt, st, at)
  {
    && (forall k :: T.Has(st, q.superHash, k) <==> T.Has(at, q.superHash, k))
    && (forall g :: T.Has(gt, q.hash, g) ==> T.Has(at, q.superHash, q.super(g)))
  }

  ghost predicate CountsOk<X, G(!new), K(!new), A, S, O>(q: Query<X, G, K, A, S, O>, gt: T.Table<G, A>,
      at: T.Table<K, Attr<G>>)
    requires |gt.chains| > 0 && |at.chains| > 0
  {
    forall k :: T.Has(at, q.superHash, k) ==> AttrOk(q, gt, T.Get(at, q.superHash, k), k)
  }

  /** The bookkeeping of the tables in use. */
  ghost predicate SideOk<X, G(!new), K(!new), A, S, O>(q: Query<X, G, K, A, S, O>, gt: T.Table<G, A>, st: T.Table<K, S>,
      at: T.Table<K, Attr<G>>) {
    TablesOk(q, gt, st, at) && Sized(gt, st, at) && KeysOk(q, gt, st, at) && CountsOk(q, gt, at)
  }

  // ------------------------------------------------ updates of single entries

  lemma SizedSide<X, G(!new), K(!new), A, S, O>(q: Query<X, G, K, A, S, O>, gt: T.Table<G, A>, st: T.Table<K, S>,
      at: T.Table<K, Attr<G>>)
    requires SideOk(q, gt, st, at)
    ensures Sized(gt, st, at) && |gt.chains| > 0 && |st.chains| > 0 && |at.chains| > 0
  {
  }

  /** Two tables with the same lookups but for one key. */
  ghost predicate SameBut<K(!new), V>(t: T.Table<K, V>, t': T.Table<K, V>, hash: K -> nat, k: K)
    requires |t.chains| > 0 && |t'.chains| > 0
  {
    forall j :: j != k ==> (T.Has(t', hash, j) <==> T.Has(t, hash, j)) && (T.Has(t, hash, j) ==>
            T.Get(t', hash, j) == T.Get(t, hash, j))
  }

  lemma PutChains<K, V>(t: T.Table<K, V>, hash: K -> nat, k: K, v: V)
    requires |t.chains| > 0 && T.Has(t, hash, k)
    ensures |T.Put(t, hash, k, v).chains| == |t.chains|
  {
  }

  lemma PutSame<K(!new), V>(t: T.Table<K, V>, hash: K -> nat, k: K, v: V)
    requires T.Valid(t, hash) && |t.chains| > 0 && T.Has(t, hash, k)
    ensures T.Valid(T.Put(t, hash, k, v), hash) && |T.Put(t, hash, k, v).chains| > 0
    ensures SameBut(t, T.Put(t, hash, k, v), hash, k)
    ensures T.Has(T.Put(t, hash, k, v), hash, k) && T.Get(T.Put(t, hash, k, v), hash, k) == v
  {
    hide T.Valid, T.Items, T.Put, T.Has, T.Get;
    PutChains(t, hash, k, v);
    var p := T.PutItems(t, hash, k, v);
    L.HasPut(t, hash, k, v, k);
    forall j | j != k
      ensures (T.Has(T.Put(t, hash, k, v), hash, j) <==> T.Has(t, hash, j))
           && (T.Has(t, hash, j) ==> T.Get(T.Put(t, hash, k, v), hash, j) == T.Get(t, hash, j))
    {
      L.HasPut(t, hash, k, v, j);
    }
  }

  lemma InsertSame<K(!new), V>(t: T.Table<K, V>, hash: K -> nat, k: K, v: V)
    requires T.Valid(t, hash) && |t.chains| > 0
    ensures T.Valid(T.Insert(t, hash, k, v), hash) && |T.Insert(t, hash, k, v).chains| > 0
    ensures SameBut(t, T.Insert(t, hash, k, v), hash, k)
    ensures T.Has(T.Insert(t, hash, k, v), hash, k) && T.Get(T.Insert(t, hash, k, v), hash, k) == v
  {
    hide T.Items, T.Has, T.Get, T.UsedOk, T.Placed;
    T.InsertValid(t, hash, k, v);
    hide T.Insert, T.Valid;
    L.HasInsert(t, hash, k, v, k);
    forall j | j != k
      ensures (T.Has(T.Insert(t, hash, k, v), hash, j) <==> T.Has(t, hash, j))
           && (T.Has(t, hash, j) ==> T.Get(T.Insert(t, hash, k, v), hash, j) == T.Get(t, hash, j))
    {
      L.HasInsert(t, hash, k, v, j);
    }
  }

  lemma EraseSame<K(!new), V>(t: T.Table<K, V>, hash: K -> nat, k: K)
    requires T.Valid(t, hash) && T.UniqueKeys(T.Items(t)) && |t.chains| > 0 && T.Has(t, hash, k)
    ensures T.Valid(T.Erase(t, hash, k), hash) && T.UniqueKeys(T.Items(T.Erase(t, hash, k)))
    ensures |T.Erase(t, hash, k).chains| > 0
    ensures SameBut(t, T.Erase(t, hash, k), hash, k) && !T.Has(T.Erase(t, hash, k), hash, k)
  {
    hide T.Valid, T.Items, T.Erase, T.Has, T.Get, T.UniqueKeys;
    L.UniqueErase(t, hash, k);
    L.HasErase(t, hash, k, k);
    forall j | j != k
      ensures (T.Has(T.Erase(t, hash, k), hash, j) <==> T.Has(t, hash, j))
           && (T.Has(t, hash, j) ==> T.Get(T.Erase(t, hash, k), hash, j) == T.Get(t, hash, j))
    {
      L.HasErase(t, hash, k, j);
    }
  }

  lemma PutUnique<K(!new), V>(t: T.Table<K, V>, hash: K -> nat, k: K, v: V)
    requires T.Valid(t, hash) && T.UniqueKeys(T.Items(t)) && |t.chains| > 0 && T.Has(t, hash, k)
    ensures T.UniqueKeys(T.Items(T.Put(t, hash, k, v)))
  {
    hide T.Valid, T.Items, T.Put, T.Has, T.Get, T.UniqueKeys;
    L.UniquePut(t, hash, k, v);
  }

  lemma InsertUnique<K(!new), V>(t: T.Table<K, V>, hash: K -> nat, k: K, v: V)
    requires T.Valid(t, hash) && T.UniqueKeys(T.Items(t)) && |t.chains| > 0 && !T.Has(t, hash, k)
    ensures T.UniqueKeys(T.Items(T.Insert(t, hash, k, v)))
  {
    hide T.Valid, T.Items, T.Insert, T.Has, T.Get, T.UniqueKeys;
    T.UniqueInsert(t, hash, k, v);
  }

  /** Changing a supergroup's state changes nothing else. */
  lemma PutState<X, G(!new), K(!new), A, S, O>(q: Query<X, G, K, A, S, O>, gt: T.Table<G, A>, st: T.Table<K, S>,
      at: T.Table<K, Attr<G>>, k: K, s: S)
    requires SideOk(q, gt, st, at) && T.Has(st, q.superHash, k)
    ensures SideOk(q, gt, T.Put(st, q.superHash, k, s), at)
  {
    hide T.Valid, T.Items, T.Put, T.Has, T.Get, CountsOk, T.UniqueKeys;
    PutUnique(st, q.superHash, k, s);
    PutSame(st, q.superHash, k, s);
  }

  /** Updating the aggregate of a stored group changes nothing else. */
  lemma PutGroup<X, G(!new), K(!new), A, S, O>(q: Query<X, G, K, A, S, O>, gt: T.Table<G, A>, st: T.Table<K, S>,
      at: T.Table<K, Attr<G>>, g: G, a: A)
    requires SideOk(q, gt, st, at) && T.Has(gt, q.hash, g)
    ensures SideOk(q, T.Put(gt, q.hash, g, a), st, at)
  {
    hide T.Valid, T.Items, T.Put, T.Has, T.Get, T.UniqueKeys, T.NoDup;
    PutUnique(gt, q.hash, g, a);
    PutSame(gt, q.hash, g, a);
    forall k | T.Has(at, q.superHash, k) ensures AttrOk(q, T.Put(gt, q.hash, g, a), T.Get(at, q.superHash, k), k) {
      assert AttrOk(q, gt, T.Get(at, q.superHash, k), k);
    }
  }

  // ------------------------------------------------ one group more, one group less

  /** The attribute of k replaced by a, with the group table changed only in groups of k. */
  lemma ReplaceAttr<X, G(!new), K(!new), A, S, O>(q: Query<X, G, K, A, S, O>, gt: T.Table<G, A>, gt': T.Table<G, A>,
      st: T.Table<K, S>,
      at: T.Table<K, Attr<G>>, g: G, a: Attr<G>)
    requires SideOk(q, gt, st, at) && T.Has(at, q.superHash, q.super(g))
    requires T.Valid(gt', q.hash) && T.UniqueKeys(T.Items(gt')) && |gt'.chains| > 0 && SameBut(gt, gt', q.hash, g)
    requires AttrOk(q, gt', a, q.super(g))
    ensures SideOk(q, gt', st, T.Put(at, q.superHash, q.super(g), a))
  {
    hide T.Valid, T.Items, T.Put, T.Has, T.Get, T.UniqueKeys, T.NoDup;
    var k := q.super(g);
    var at' := T.Put(at, q.superHash, k, a);
    PutSame(at, q.superHash, k, a);
    forall j | T.Has(at', q.superHash, j) ensures AttrOk(q, gt', T.Get(at', q.superHash, j), j) {
      if j != k { assert AttrOk(q, gt, T.Get(at, q.superHash, j), j); }
    }
  }

  lemma CutList<G>(l: seq<G>, i: nat)
    requires T.NoDup(l) && i < |l|
    ensures var d := l[..i] + l[i + 1..]; T.NoDup(d) && forall h :: h in d <==> h in l && h != l[i]
  {
    var d := l[..i] + l[i + 1..];
    assert l == l[..i] + [l[i]] + l[i + 1..];
    assert forall j :: 0 <= j < |d| ==> d[j] == l[if j < i then j else j + 1];
  }

  /** Evicting the i-th group of a supergroup from the group table, its list and its count. */
  lemma EvictOk<X, G(!new), K(!new), A, S, O>(q: Query<X, G, K, A, S, O>, gt: T.Table<G, A>, st: T.Table<K, S>,
      at: T.Table<K, Attr<G>>, k: K, i: nat)
    requires SideOk(q, gt, st, at) && T.Has(at, q.superHash, k) && i < |T.Get(at, q.superHash, k).list|
    ensures var a := T.Get(at, q.superHash, k);
            var g := a.list[i];
            && q.super(g) == k && T.Has(gt, q.hash, g)
            && SideOk(q, T.Erase(gt, q.hash, g), st,
                      T.Put(at, q.superHash, k, Attr(a.count - 1, a.list[..i] + a.list[i + 1..])))
  {
    hide T.Valid, T.Items, T.Put, T.Has, T.Get, T.UniqueKeys, T.NoDup, T.Erase;
    var a := T.Get(at, q.superHash, k);
    var g := a.list[i];
    assert AttrOk(q, gt, a, k);
    assert g in a.list;
    EraseSame(gt, q.hash, g);
    CutList(a.list, i);
    ReplaceAttr(q, gt, T.Erase(gt, q.hash, g), st, at, g, Attr(a.count - 1, a.list[..i] + a.list[i + 1..]));
  }

  /** Storing a new group, adding it to its supergroup's list, and counting it. */
  lemma StoreOk<X, G(!new), K(!new), A, S, O>(q: Query<X, G, K, A, S, O>, gt: T.Table<G, A>, st: T.Table<K, S>,
      at: T.Table<K, Attr<G>>, g: G, v: A)
    requires SideOk(q, gt, st, at) && T.Has(at, q.superHash, q.super(g)) && !T.Has(gt, q.hash, g)
    ensures var a := T.Get(at, q.superHash, q.super(g));
            SideOk(q, T.Insert(gt, q.hash, g, v), st,
                   T.Put(at, q.superHash, q.super(g), Attr(a.count + 1, a.list + [g])))
  {
    hide T.Valid, T.Items, T.Put, T.Has, T.Get, T.UniqueKeys, T.NoDup, T.Insert;
    var k := q.super(g);
    var a := T.Get(at, q.superHash, k);
    assert AttrOk(q, gt, a, k);
    InsertSame(gt, q.hash, g, v);
    InsertUnique(gt, q.hash, g, v);
    SnocNoDup(a.list, g);
    ReplaceAttr(q, gt, T.Insert(gt, q.hash, g, v), st, at, g, Attr(a.count + 1, a.list + [g]));
  }

  lemma SnocNoDup<G>(l: seq<G>, g: G)
    requires T.NoDup(l) && g !in l
    ensures T.NoDup(l + [g])
  {
  }

  /** A new supergroup starts with an empty list in the attribute table. */
  lemma NewSuperOk<X, G(!new), K(!new), A, S, O>(q: Query<X, G, K, A, S, O>, gt: T.Table<G, A>, st: T.Table<K, S>,
      at: T.Table<K, Attr<G>>, k: K, s: S)
    requires SideOk(q, gt, st, at) && !T.Has(st, q.superHash, k)
    ensures SideOk(q, gt, T.Insert(st, q.superHash, k, s), T.Insert(at, q.superHash, k, Attr(0, [])))
  {
    hide T.Valid, T.Items, T.Has, T.Get, T.UniqueKeys, T.NoDup, T.Insert;
    InsertSame(st, q.superHash, k, s);
    InsertUnique(st, q.superHash, k, s);
    InsertSame(at, q.superHash, k, Attr(0, []));
    var at' := T.Insert(at, q.superHash, k, Attr(0, []));
    NoDupNil<G>();
    forall j | T.Has(at', q.superHash, j) ensures AttrOk(q, gt, T.Get(at', q.superHash, j), j) {
      if j != k { assert AttrOk(q, gt, T.Get(at, q.superHash, j), j); }
    }
  }

  lemma NoDupNil<G>()
    ensures T.NoDup<G>([])
  {
  }

  /** Empty tables. */
  lemma EmptySide<X, G(!new), K(!new), A, S, O>(q: Query<X, G, K, A, S, O>, gt: T.Table<G, A>, st: T.Table<K, S>,
      at: T.Table<K, Attr<G>>)
    requires T.Valid(gt, q.hash) && T.Valid(st, q.superHash) && T.Valid(at, q.superHash)
    requires T.Items(gt) == [] && T.Items(st) == [] && T.Items(at) == []
    ensures SideOk(q, gt, st, at)
  {
    hide T.Items, T.Has, T.UsedOk, T.Placed;
    forall g ensures !T.Has(gt, q.hash, g) { L.EmptyHas(gt, q.hash, g); }
    forall k ensures !T.Has(st, q.superHash, k) { L.EmptyHas(st, q.superHash, k); }
    forall k ensures !T.Has(at, q.superHash, k) { L.EmptyHas(at, q.superHash, k); }
  }
}
