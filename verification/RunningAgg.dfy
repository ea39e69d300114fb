/** The running-aggregate operator's flush, which erases groups behind a pre-advanced iterator. */
module RunningAgg {
  import opened Options
  import T = Table
  import R = RunningRuns
  import opened HashTables

  /** The items that survive a cleaning pass, in order. */
  function Keep<K, V>(items: seq<T.Item<K, V>>, clean: (K, V) -> bool): seq<T.Item<K, V>> {
    if items == [] then []
    else Keep(items[..|items| - 1], clean)
         + (if clean(items[|items| - 1].key, items[|items| - 1].val) then [] else [items[|items| - 1]])
  }

  lemma KeepSnoc<K, V>(items: seq<T.Item<K, V>>, x: T.Item<K, V>, clean: (K, V) -> bool)
    ensures Keep(items + [x], clean) == Keep(items, clean) + (if clean(x.key, x.val) then [] else [x])
  {
    assert (items + [x])[..|items|] == items;
  }

  /** The chains and the used list after the p-th item of the u-th used bucket is cut out. */
  ghost function CutChains<K, V>(chains: seq<seq<DataItem<K, V>>>, used: seq<nat>, u: nat,
      p: nat): seq<seq<DataItem<K, V>>>
    requires u < |used| && used[u] < |chains| && p < |chains[used[u]]|
  {
    chains[used[u] := chains[used[u]][..p] + chains[used[u]][p + 1..]]
  }

  ghost function CutUsed<K, V>(chains: seq<seq<DataItem<K, V>>>, used: seq<nat>, u: nat): seq<nat>
    requires u < |used| && used[u] < |chains|
  {
    if |chains[used[u]]| == 1 then T.Without(used, used[u]) else used
  }

  /** An iterator one step ahead of the cut item now stands at the cut item's offset. */
  lemma AheadOfCut<K, V>(bs: seq<HashBucket<K, V>>, chains: seq<seq<DataItem<K, V>>>, used: seq<nat>, u: nat, p: nat,
      bucket: HashBucket?<K, V>, data: DataItem?<K, V>) returns (v: nat, r: nat)
    requires T.UsedOk(AbsOf(chains, used)) && u < |used| && used[u] < |chains| && p < |chains[used[u]]|
    requires if p + 1 < |chains[used[u]]| then AtPosition(bs, chains, used, bucket, data, u, p + 1)
             else AtPosition(bs, chains, used, bucket, data, u + 1, 0)
    ensures var c', u' := CutChains(chains, used, u, p), CutUsed(chains, used, u);
            && AtPosition(bs, c', u', bucket, data, v, r)
            && T.UsedOk(AbsOf(c', u')) && T.Offset(AbsOf(c', u'), v, r) == T.Offset(AbsOf(chains, used), u, p)
  {
    hide T.UsedOk, T.Offset, AtPosition, AbsOf;
    var b, n := used[u], |chains[used[u]]|;
    CutAbs(chains, used, u, p);
    T.OffsetCut(AbsOf(chains, used), u, ItemSeq(chains[b][..p] + chains[b][p + 1..]));
    var c', u' := CutChains(chains, used, u, p), CutUsed(chains, used, u);
    OffsetPlus(AbsOf(chains, used), u, p);
    OffsetPlus(AbsOf(c', u'), u, p);
    if p + 1 < n {
      v, r := u, p;
      SameBucket(bs, chains, used, u, p, bucket, data);
    } else if n > 1 {
      v, r := u + 1, 0;
      T.OffsetNext(AbsOf(c', u'), u);
      NextBucket(bs, chains, used, u, p, bucket, data);
    } else {
      v, r := u, 0;
      DroppedBucket(bs, chains, used, u, bucket, data);
    }
  }

  lemma OffsetPlus<K, V>(t: T.Table<K, V>, u: nat, p: nat)
    requires T.UsedOk(t) && u <= |t.used|
    ensures T.Offset(t, u, p) == T.Offset(t, u, 0) + p
  {
  }

  lemma CutAbs<K, V>(chains: seq<seq<DataItem<K, V>>>, used: seq<nat>, u: nat, p: nat)
    requires u < |used| && used[u] < |chains| && p < |chains[used[u]]|
    ensures var b := used[u];
            var t, s := AbsOf(chains, used), ItemSeq(chains[b][..p] + chains[b][p + 1..]);
            && t.used == used && |t.chains| == |chains|
            && AbsOf(CutChains(chains, used, u, p), CutUsed(chains, used, u))
               == T.Table(t.chains[b := s], if s == [] then T.Without(used, b) else used)
            && AbsOf(CutChains(chains, used, u, p), CutUsed(chains, used, u)).chains[b] == s
  {
    hide T.Without;
    var b := used[u];
    var t, s := AbsOf(chains, used), ItemSeq(chains[b][..p] + chains[b][p + 1..]);
    assert AbsOf(CutChains(chains, used, u, p), used).chains == t.chains[b := s];
  }

  lemma SameBucket<K, V>(bs: seq<HashBucket<K, V>>, chains: seq<seq<DataItem<K, V>>>, used: seq<nat>, u: nat, p: nat,
      bucket: HashBucket?<K, V>, data: DataItem?<K, V>)
    requires u < |used| && used[u] < |chains| && p + 1 < |chains[used[u]]|
    requires AtPosition(bs, chains, used, bucket, data, u, p + 1)
    ensures AtPosition(bs, CutChains(chains, used, u, p), CutUsed(chains, used, u), bucket, data, u, p)
  {
  }

  lemma NextBucket<K, V>(bs: seq<HashBucket<K, V>>, chains: seq<seq<DataItem<K, V>>>, used: seq<nat>, u: nat, p: nat,
      bucket: HashBucket?<K, V>, data: DataItem?<K, V>)
    requires T.UsedOk(AbsOf(chains, used)) && u < |used| && used[u] < |chains| && p < |chains[used[u]]|
    requires |chains[used[u]]| > 1
    requires AtPosition(bs, chains, used, bucket, data, u + 1, 0)
    ensures AtPosition(bs, CutChains(chains, used, u, p), CutUsed(chains, used, u), bucket, data, u + 1, 0)
  {
    if u + 1 < |used| { Distinct(used, u, u + 1); }
  }

  lemma DroppedBucket<K, V>(bs: seq<HashBucket<K, V>>, chains: seq<seq<DataItem<K, V>>>, used: seq<nat>, u: nat,
      bucket: HashBucket?<K, V>, data: DataItem?<K, V>)
    requires T.UsedOk(AbsOf(chains, used)) && u < |used| && used[u] < |chains| && |chains[used[u]]| == 1
    requires AtPosition(bs, chains, used, bucket, data, u + 1, 0)
    ensures AtPosition(bs, CutChains(chains, used, u, 0), CutUsed(chains, used, u), bucket, data, u, 0)
  {
    T.WithoutAt(used, u);
    if u + 1 < |used| { Distinct(used, u, u + 1); }
    var u' := used[..u] + used[u + 1..];
    forall i | 0 <= i < |u'| ensures u'[i] < |bs| { assert u'[i] == used[if i < u then i else i + 1]; }
  }

  /** What is known of the item under the iterator before it is erased. */
  lemma Located<K, V>(t: HashTable<K, V>, bucket: HashBucket<K, V>, data: DataItem<K, V>, u: nat, p: nat)
    requires t.Valid() && t.AtItem(bucket, data, u, p) && T.UniqueKeys(T.Items(t.Abs()))
    ensures u < |t.used| && |t.chains| == |t.buckets| > 0 && t.used[u] < |t.chains| && p < |t.chains[t.used[u]]|
    ensures t.used[u] == t.hash(data.first) % |t.buckets| && T.FirstAt(ItemSeq(t.chains[t.used[u]]), data.first) == p
    ensures T.UsedOk(t.Abs()) && t.Offset(u, p) == T.Offset(t.Abs(), u, p) < |T.Items(t.Abs())|
    ensures var n, items := T.Offset(t.Abs(), u, p), T.Items(t.Abs());
            |t.Abs().chains| > 0 && T.Items(T.Erase(t.Abs(), t.hash, data.first)) == items[..n] + items[n + 1..]
  {
    var a := t.Abs();
    t.UsedOk();
    t.TableValid();
    t.ItemHere(bucket, data, u, p);
    t.FirstHere(bucket, data, u, p);
    HasHere(t.chains, t.used, t.hash, data.first);
    hide T.Items, T.Erase, T.Has, T.Offset, T.UsedOk, T.Valid;
    var q := T.EraseItems(a, t.hash, data.first);
    SamePlace(T.Items(a), q, T.Offset(a, u, p));
  }

  lemma SamePlace<K, V>(items: seq<T.Item<K, V>>, i: nat, j: nat)
    requires T.UniqueKeys(items) && i < |items| && j < |items| && items[i].key == items[j].key
    ensures i == j
  {
  }

  lemma HasHere<K, V>(chains: seq<seq<DataItem<K, V>>>, used: seq<nat>, hash: K -> nat, key: K)
    requires |chains| > 0
    ensures var b := hash(key) % |chains|;
            T.Has(AbsOf(chains, used), hash, key) <==> T.FirstAt(ItemSeq(chains[b]), key) < |chains[b]|
  {
  }

  /**
   * Erase the item the iterator (bucket, data) stands on after advancing a copy of the iterator: the copy still
   * stands on the following item, which now has the erased item's offset.
   */
  method EraseBehind<K(==), V>(t: HashTable<K, V>, bucket: HashBucket<K, V>, data: DataItem<K, V>, ghost u: nat,
      ghost p: nat)
      returns (bucket': HashBucket?<K, V>, data': DataItem?<K, V>, ghost u': nat, ghost p': nat)
    requires t.Valid() && t.AtItem(bucket, data, u, p) && T.UniqueKeys(T.Items(t.Abs()))
    modifies t, t.buckets, t.items
    ensures t.Valid() && t.buckets == old(t.buckets) && t.items == old(t.items)
    ensures var n := old(t.Offset(u, p));
            && n < |old(T.Items(t.Abs()))|
            && T.Items(t.Abs()) == old(T.Items(t.Abs()))[..n] + old(T.Items(t.Abs()))[n + 1..]
            && t.AtItem(bucket', data', u', p') && t.Offset(u', p') == n
  {
    hide *;
    ghost var c, us := t.chains, t.used;
    Located(t, bucket, data, u, p);
    bucket', data', u', p' := t.Advance(bucket, data, u, p);
    t.AtIs(bucket', data', u', p');
    var g := data.first;
    t.Erase(g);
    CutIs(c, us, u, p, t.chains, t.used);
    u', p' := AheadOfCut(t.buckets, c, us, u, p, bucket', data');
    t.IsAt(bucket', data', u', p');
  }

  lemma CutIs<K, V>(c: seq<seq<DataItem<K, V>>>, us: seq<nat>, u: nat, p: nat, c': seq<seq<DataItem<K, V>>>,
      us': seq<nat>)
    requires u < |us| && us[u] < |c| && p < |c[us[u]]|
    requires c' == c[us[u] := c[us[u]][..p] + c[us[u]][p + 1..]]
    requires us' == if |c[us[u]]| == 1 then T.Without(us, us[u]) else us
    ensures c' == CutChains(c, us, u, p) && us' == CutUsed(c, us, u)
  {
  }

  lemma UniqueCut<K, V>(items: seq<T.Item<K, V>>, n: nat)
    requires T.UniqueKeys(items) && n < |items|
    ensures T.UniqueKeys(items[..n] + items[n + 1..])
  {
    var r := items[..n] + items[n + 1..];
    assert forall i :: 0 <= i < |r| ==> r[i] == items[if i < n then i else i + 1];
  }

  lemma Progress<K, V>(items: seq<T.Item<K, V>>, all: seq<T.Item<K, V>>, kept: seq<T.Item<K, V>>, n: nat,
      clean: (K, V) -> bool)
    requires n <= |all| && kept == Keep(all[..n], clean) && items == kept + all[n..] && |kept| < |items|
    ensures n < |all| && items[|kept|] == all[n] && all[..n] + [all[n]] == all[..n + 1]
    ensures clean(all[n].key, all[n].val) ==>
            Keep(all[..n + 1], clean) == kept && items[..|kept|] + items[|kept| + 1..] == kept + all[n + 1..]
    ensures !clean(all[n].key, all[n].val) ==>
            Keep(all[..n + 1], clean) == kept + [all[n]] && items == (kept + [all[n]]) + all[n + 1..]
  {
    assert all[..n + 1] == all[..n] + [all[n]];
    KeepSnoc(all[..n], all[n], clean);
    hide Keep;
    assert kept + [] == kept;
  }

  /** After n groups: the iterator stands behind the kept ones, in front of the groups not yet visited. */
  ghost predicate Flushing<K, V>(t: HashTable<K, V>, bucket: HashBucket?<K, V>, data: DataItem?<K, V>, u: nat, p: nat,
                                 all: seq<T.Item<K, V>>, n: nat, clean: (K, V) -> bool)
    reads t, t.buckets, t.items
  {
    && t.Valid() && t.AtItem(bucket, data, u, p) && u <= |t.used| && (data != null ==> bucket != null)
    && T.UniqueKeys(T.Items(t.Abs()))
    && n <= |all| && t.Offset(u, p) == |Keep(all[..n], clean)|
    && T.Items(t.Abs()) == Keep(all[..n], clean) + all[n..]
  }

  lemma FlushingHere<K, V>(t: HashTable<K, V>, bucket: HashBucket<K, V>, data: DataItem<K, V>, u: nat, p: nat,
      all: seq<T.Item<K, V>>, n: nat, clean: (K, V) -> bool)
    requires Flushing(t, bucket, data, u, p, all, n, clean)
    ensures n < |all| && all[n] == T.Item(data.first, data.second) && all[..n] + [all[n]] == all[..n + 1]
    ensures |Keep(all[..n], clean)| < |T.Items(t.Abs())|
    ensures var kept, items := Keep(all[..n], clean), T.Items(t.Abs());
            && (clean(data.first, data.second) ==>
                  Keep(all[..n + 1], clean) == kept && items[..|kept|] + items[|kept| + 1..] == kept + all[n + 1..])
            && (!clean(data.first, data.second) ==>
                  |Keep(all[..n + 1], clean)| == |kept| + 1 && items == Keep(all[..n + 1], clean) + all[n + 1..])
  {
    t.ItemHere(bucket, data, u, p);
    hide Keep, T.Items, T.UniqueKeys;
    Progress(T.Items(t.Abs()), all, Keep(all[..n], clean), n, clean);
  }

  method FlushOne<K(==), V>(t: HashTable<K, V>, bucket: HashBucket<K, V>, data: DataItem<K, V>, ghost u: nat,
      ghost p: nat,
      ghost all: seq<T.Item<K, V>>, ghost n: nat, ghost clean: (K, V) -> bool, evict: bool)
      returns (bucket': HashBucket?<K, V>, data': DataItem?<K, V>, ghost u': nat, ghost p': nat)
    requires Flushing(t, bucket, data, u, p, all, n, clean) && evict == clean(data.first, data.second)
    modifies t, t.buckets, t.items
    ensures t.buckets == old(t.buckets) && t.items == old(t.items)
    ensures n < |all| && all[n] == T.Item(data.first, data.second) && all[..n] + [all[n]] == all[..n + 1]
    ensures Flushing(t, bucket', data', u', p', all, n + 1, clean)
  {
    hide Keep, T.Items, T.UniqueKeys, AtPosition;
    FlushingHere(t, bucket, data, u, p, all, n, clean);
    if evict {
      UniqueCut(T.Items(t.Abs()), |Keep(all[..n], clean)|);
      bucket', data', u', p' := EraseBehind(t, bucket, data, u, p);
    } else {
      bucket', data', u', p' := t.Advance(bucket, data, u, p);
    }
    t.AtBound(bucket', data', u', p');
  }

  // ------------------------------------------------ the aggregates behind the pointers

  /** Every group has its own aggregate object, and the heap knows it. */
  ghost predicate Owned<K, V, A>(items: seq<T.Item<K, V>>, heap: map<V, A>) {
    && (forall i :: 0 <= i < |items| ==> items[i].val in heap)
    && (forall i, j :: 0 <= i < j < |items| ==> items[i].val != items[j].val)
  }

  /** The groups with the aggregates that their pointers lead to. */
  ghost function Loaded<K, V, A>(items: seq<T.Item<K, V>>, heap: map<V, A>): (r: seq<T.Item<K, A>>)
    requires forall i :: 0 <= i < |items| ==> items[i].val in heap
    ensures |r| == |items|
  {
    seq(|items|, i requires 0 <= i < |items| => T.Item(items[i].key, heap[items[i].val]))
  }

  /** The eviction test on a pointer, before the flush changes any aggregate. */
  ghost function Evicts<K, V, A>(clean: (K, A) -> bool, heap: map<V, A>): (K, V) -> bool {
    (k, v) => v in heap && clean(k, heap[v])
  }

  /** The heap after the first n groups: the aggregates of those that stay are restarted. */
  ghost function HeapAfter<K, V, A>(items: seq<T.Item<K, V>>, heap: map<V, A>, clean: (K, A) -> bool,
      reinit: (K, A) -> A, n: nat): (h: map<V, A>)
    requires Owned(items, heap) && n <= |items|
    ensures h.Keys == heap.Keys
  {
    if n == 0 then heap else
    var h := HeapAfter(items, heap, clean, reinit, n - 1);
    var x := items[n - 1];
    if clean(x.key, heap[x.val]) then h else h[x.val := reinit(x.key, heap[x.val])]
  }

  lemma {:induction false} HeapElsewhere<K, V, A>(items: seq<T.Item<K, V>>, heap: map<V, A>, clean: (K, A) -> bool,
      reinit: (K, A) -> A, n: nat, v: V)
    requires Owned(items, heap) && n <= |items| && v in heap && forall i :: 0 <= i < n ==> items[i].val != v
    ensures HeapAfter(items, heap, clean, reinit, n)[v] == heap[v]
  {
    if n > 0 { HeapElsewhere(items, heap, clean, reinit, n - 1, v); }
  }

  lemma NotYet<K, V, A>(items: seq<T.Item<K, V>>, heap: map<V, A>, clean: (K, A) -> bool, reinit: (K, A) -> A, n: nat)
    requires Owned(items, heap) && n < |items|
    ensures items[n].val in heap && HeapAfter(items, heap, clean, reinit, n)[items[n].val] == heap[items[n].val]
  {
    hide HeapAfter;
    HeapElsewhere(items, heap, clean, reinit, n, items[n].val);
  }

  lemma LoadedSnoc<K, V, A>(items: seq<T.Item<K, V>>, heap: map<V, A>, n: nat)
    requires Owned(items, heap) && n < |items|
    ensures Loaded(items[..n + 1], heap) == Loaded(items[..n], heap) + [T.Item(items[n].key, heap[items[n].val])]
  {
  }

  /** What Keep leaves comes from the list. */
  lemma {:induction false} KeptFrom<K, V>(items: seq<T.Item<K, V>>, clean: (K, V) -> bool, i: nat) returns (j: nat)
    requires i < |Keep(items, clean)|
    ensures j < |items| && Keep(items, clean)[i] == items[j]
  {
    var n := |items| - 1;
    if i < |Keep(items[..n], clean)| {
      j := KeptFrom(items[..n], clean, i);
    } else {
      j := n;
    }
  }

  lemma KeptOwned<K, V, A>(items: seq<T.Item<K, V>>, heap: map<V, A>, h: map<V, A>, clean: (K, V) -> bool, n: nat)
    requires Owned(items, heap) && n <= |items| && h.Keys == heap.Keys
    ensures forall i :: 0 <= i < |Keep(items[..n], clean)| ==> Keep(items[..n], clean)[i].val in h
  {
    hide Keep;
    forall i | 0 <= i < |Keep(items[..n], clean)| ensures Keep(items[..n], clean)[i].val in h {
      var j := KeptFrom(items[..n], clean, i);
    }
  }

  /** The groups kept so far, read through the new heap, are the restarted ones. */
  lemma {:induction false} KeptRestarted<K, V, A>(items: seq<T.Item<K, V>>, heap: map<V, A>, clean: (K, A) -> bool,
      reinit: (K, A) -> A, n: nat)
    requires Owned(items, heap) && n <= |items|
    ensures var h := HeapAfter(items, heap, clean, reinit, n);
            var kept := Keep(items[..n], Evicts(clean, heap));
            && (forall i :: 0 <= i < |kept| ==> kept[i].val in h)
            && Loaded(kept, h) == R.Restarted(Loaded(items[..n], heap), clean, reinit)
  {
    hide Keep, R.Restarted, Loaded, HeapAfter;
    HeapNext(items, heap, clean, reinit, n);
    var ev := Evicts(clean, heap);
    KeptOwned(items, heap, HeapAfter(items, heap, clean, reinit, n), ev, n);
    if n == 0 {
      NoneKept(items, heap, clean, reinit);
    } else {
      var x := items[n - 1];
      var h1 := HeapAfter(items, heap, clean, reinit, n - 1);
      var kept1 := Keep(items[..n - 1], ev);
      KeptRestarted(items, heap, clean, reinit, n - 1);
      NotYet(items, heap, clean, reinit, n - 1);
      LoadedSnoc(items, heap, n - 1);
      R.RestartedSnoc(Loaded(items[..n - 1], heap), T.Item(x.key, heap[x.val]), clean, reinit);
      assert items[..n - 1] + [x] == items[..n];
      KeepSnoc(items[..n - 1], x, ev);
      KeptApart(items, heap, ev, n - 1);
      assert kept1 + [] == kept1;
      LoadedStep(kept1, x, h1, reinit(x.key, heap[x.val]));
      assert Loaded(kept1, h1) + [] == Loaded(kept1, h1);
    }
  }

  lemma HeapNext<K, V, A>(items: seq<T.Item<K, V>>, heap: map<V, A>, clean: (K, A) -> bool, reinit: (K, A) -> A, n: nat)
    requires Owned(items, heap) && n <= |items|
    ensures n == 0 ==> HeapAfter(items, heap, clean, reinit, n) == heap
    ensures n > 0 ==> var h, x := HeapAfter(items, heap, clean, reinit, n - 1), items[n - 1];
              && x.val in heap && Evicts(clean, heap)(x.key, x.val) == clean(x.key, heap[x.val])
              && HeapAfter(items, heap, clean, reinit, n)
                 == if clean(x.key, heap[x.val]) then h else h[x.val := reinit(x.key, heap[x.val])]
  {
  }

  lemma NoneKept<K, V, A>(items: seq<T.Item<K, V>>, heap: map<V, A>, clean: (K, A) -> bool, reinit: (K, A) -> A)
    requires Owned(items, heap)
    ensures Keep(items[..0], Evicts(clean, heap)) == []
    ensures Loaded(items[..0], heap) == [] && R.Restarted(Loaded(items[..0], heap), clean, reinit) == []
    ensures Loaded(Keep(items[..0], Evicts(clean, heap)), heap) == []
  {
  }

  /** A group not yet visited shares its aggregate with none of the kept ones. */
  lemma KeptApart<K, V, A>(items: seq<T.Item<K, V>>, heap: map<V, A>, clean: (K, V) -> bool, n: nat)
    requires Owned(items, heap) && n < |items|
    ensures forall i :: 0 <= i < |Keep(items[..n], clean)| ==> Keep(items[..n], clean)[i].val != items[n].val
  {
    hide Keep;
    forall i | 0 <= i < |Keep(items[..n], clean)| ensures Keep(items[..n], clean)[i].val != items[n].val {
      var j := KeptFrom(items[..n], clean, i);
    }
  }

  lemma LoadedStep<K, V, A>(kept: seq<T.Item<K, V>>, x: T.Item<K, V>, h: map<V, A>, a: A)
    requires forall i :: 0 <= i < |kept| ==> kept[i].val in h && kept[i].val != x.val
    ensures Loaded(kept + [x], h[x.val := a]) == Loaded(kept, h) + [T.Item(x.key, a)]
  {
  }

  /**
   * The flush: a tuple is output for every group whose output can be created, once, in iteration order; the table keeps
   * exactly the groups that the cleaning predicate does not evict; and the aggregates of those are restarted.
   */
  method Flush<K(==), V(==), A, O>(t: HashTable<K, V>, heap0: map<V, A>, clean: (K, A) -> bool, reinit: (K, A) -> A,
      output: (K, A) -> Option<O>)
      returns (out: seq<O>, heap: map<V, A>)
    requires t.Valid() && T.UniqueKeys(T.Items(t.Abs())) && Owned(T.Items(t.Abs()), heap0)
    modifies t, t.buckets, t.items
    ensures t.Valid() && T.UniqueKeys(T.Items(t.Abs()))
    ensures out == R.Made(Loaded(old(T.Items(t.Abs())), heap0), output)
    ensures T.Items(t.Abs()) == Keep(old(T.Items(t.Abs())), Evicts(clean, heap0))
    ensures (forall i :: 0 <= i < |T.Items(t.Abs())| ==> T.Items(t.Abs())[i].val in heap)
    ensures Loaded(T.Items(t.Abs()), heap) == R.Restarted(Loaded(old(T.Items(t.Abs())), heap0), clean, reinit)
  {
    hide *;
    ghost var all := T.Items(t.Abs());
    ghost var ev := Evicts(clean, heap0);
    out, heap := [], heap0;
    var bucket, data := t.Begin();
    ghost var u: nat, p: nat, n: nat := 0, 0, 0;
    FlushStart(t, bucket, data, ev);
    LoadedStart(all, heap0, clean, reinit, output);
    while data != null
      invariant n <= |all| && Flushing(t, bucket, data, u, p, all, n, ev) && (data != null ==> bucket != null)
      invariant t.buckets == old(t.buckets) && t.items == old(t.items)
      invariant Owned(all, heap0) && Made(all, heap0, output, n, out) && heap == HeapAfter(all, heap0, clean, reinit, n)
      decreases |all| - n
    {
      FlushingHere(t, bucket, data, u, p, all, n, ev);
      FlushedItem(all, heap0, clean, reinit, output, n, out);
      var a := heap[data.second];
      var made := output(data.first, a);
      out := out + (if made.Some? then [made.value] else []);
      var evict := clean(data.first, a);
      if !evict { heap := heap[data.second := reinit(data.first, a)]; }
      bucket, data, u, p := FlushOne(t, bucket, data, u, p, all, n, ev, evict);
      n := n + 1;
      FlushBucket(t, bucket, data, u, p, all, n, ev);
    }
    FlushEnd(t, bucket, u, p, all, n, ev);
    KeptRestarted(all, heap0, clean, reinit, n);
    MadeAll(all, heap0, output, n, out);
  }

  /** The outputs of the first n groups. */
  ghost predicate Made<K, V, A, O>(items: seq<T.Item<K, V>>, heap: map<V, A>, output: (K, A) -> Option<O>, n: nat,
      out: seq<O>) {
    Owned(items, heap) && n <= |items| && out == R.Made(Loaded(items[..n], heap), output)
  }

  lemma LoadedStart<K, V, A, O>(items: seq<T.Item<K, V>>, heap: map<V, A>, clean: (K, A) -> bool, reinit: (K, A) -> A,
      output: (K, A) -> Option<O>)
    requires Owned(items, heap)
    ensures Made(items, heap, output, 0, []) && HeapAfter(items, heap, clean, reinit, 0) == heap
  {
  }

  /** One turn of the flush loop, seen from the heap. */
  lemma FlushedItem<K, V, A, O>(items: seq<T.Item<K, V>>, heap: map<V, A>, clean: (K, A) -> bool, reinit: (K, A) -> A,
      output: (K, A) -> Option<O>,
      n: nat, out: seq<O>)
    requires Owned(items, heap) && n < |items| && Made(items, heap, output, n, out)
    ensures var h, x := HeapAfter(items, heap, clean, reinit, n), items[n];
            && x.val in heap && x.val in h && h[x.val] == heap[x.val]
            && Evicts(clean, heap)(x.key, x.val) == clean(x.key, h[x.val])
            && Made(items, heap, output, n + 1,
                    out + (if output(x.key, h[x.val]).Some? then [output(x.key, h[x.val]).value] else []))
            && HeapAfter(items, heap, clean, reinit, n + 1)
               == (if clean(x.key, h[x.val]) then h else h[x.val := reinit(x.key, h[x.val])])
  {
    NotYet(items, heap, clean, reinit, n);
    LoadedSnoc(items, heap, n);
    R.MadeSnoc(Loaded(items[..n], heap), T.Item(items[n].key, heap[items[n].val]), output);
    hide R.Made;
  }

  lemma MadeAll<K, V, A, O>(items: seq<T.Item<K, V>>, heap: map<V, A>, output: (K, A) -> Option<O>, n: nat, out: seq<O>)
    requires Made(items, heap, output, n, out) && n == |items|
    ensures (forall i :: 0 <= i < |items| ==> items[i].val in heap) && out == R.Made(Loaded(items, heap), output)
    ensures items[..n] == items
  {
    hide R.Made;
    assert items[..n] == items;
  }

  lemma FlushStart<K, V>(t: HashTable<K, V>, bucket: HashBucket?<K, V>, data: DataItem?<K, V>, clean: (K, V) -> bool)
    requires t.Valid() && T.UniqueKeys(T.Items(t.Abs())) && t.AtItem(bucket, data, 0, 0) && t.Offset(0, 0) == 0
    ensures Flushing(t, bucket, data, 0, 0, T.Items(t.Abs()), 0, clean) && (data != null ==> bucket != null)
  {
    KeepStart(T.Items(t.Abs()), clean);
    hide Keep, T.Items, T.UniqueKeys;
  }

  lemma FlushBucket<K, V>(t: HashTable<K, V>, bucket: HashBucket?<K, V>, data: DataItem?<K, V>, u: nat, p: nat,
      all: seq<T.Item<K, V>>, n: nat, clean: (K, V) -> bool)
    requires Flushing(t, bucket, data, u, p, all, n, clean)
    ensures data != null ==> bucket != null
  {
  }

  lemma FlushEnd<K, V>(t: HashTable<K, V>, bucket: HashBucket?<K, V>, u: nat, p: nat,
      all: seq<T.Item<K, V>>, n: nat, clean: (K, V) -> bool)
    requires Flushing(t, bucket, null, u, p, all, n, clean)
    ensures n == |all| && all[..n] == all && t.Valid() && T.UniqueKeys(T.Items(t.Abs()))
    ensures T.Items(t.Abs()) == Keep(all, clean)
  {
    t.AtEnd(bucket, u, p);
    hide Keep, T.Items, T.UniqueKeys;
    assert |all[n..]| == 0;
    assert all[..n] == all && Keep(all, clean) + [] == Keep(all, clean);
  }

  lemma KeepStart<K, V>(all: seq<T.Item<K, V>>, clean: (K, V) -> bool)
    ensures Keep(all[..0], clean) == [] && [] + all[0..] == all
  {
  }
}
