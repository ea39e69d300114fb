/**
 * The running-aggregate operator over whole runs: every group evolves on its own, whatever the table does with the
 * others.
 */
module RunningRuns {
  import opened Options
  import T = Table
  import L = TableLaws

  datatype Query<!X, !G, !A, O> = Query(
    group: X -> Option<G>,
    create: X -> A,
    update: (X, A) -> A,
    clean: (G, A) -> bool,
    reinit: (G, A) -> A,
    output: (G, A) -> Option<O>,
    hash: G -> nat)

  /** A tuple and the functor's flush indicator for it. */
  datatype Input<X> = Input(x: X, flush: bool)

  /** The new table, the groups that were flushed, and the output tuples that could be made of them. */
  datatype Result<G, A, O> = Result(t: T.Table<G, A>, log: seq<T.Item<G, A>>, out: seq<O>)

  // ------------------------------------------------ what a flush does to a list of groups

  /** The output tuples of the groups, in order; a tuple that cannot be created is left out. */
  function Made<G, A, O>(items: seq<T.Item<G, A>>, output: (G, A) -> Option<O>): seq<O> {
    if items == [] then [] else
    var x := items[|items| - 1];
    Made(items[..|items| - 1], output) + (if output(x.key, x.val).Some? then [output(x.key, x.val).value] else [])
  }

  /** The groups that are not evicted, in order, with their aggregates restarted. */
  ghost function Restarted<G, A>(items: seq<T.Item<G, A>>, clean: (G, A) -> bool,
      reinit: (G, A) -> A): seq<T.Item<G, A>> {
    if items == [] then [] else
    var x := items[|items| - 1];
    Restarted(items[..|items| - 1], clean, reinit)
    + (if clean(x.key, x.val) then [] else [T.Item(x.key, reinit(x.key, x.val))])
  }

  lemma RestartedSnoc<G, A>(items: seq<T.Item<G, A>>, x: T.Item<G, A>, clean: (G, A) -> bool, reinit: (G, A) -> A)
    ensures Restarted(items + [x], clean, reinit)
         == Restarted(items, clean, reinit)
          + (if clean(x.key, x.val) then [] else [T.Item(x.key, reinit(x.key, x.val))])
  {
    assert (items + [x])[..|items|] == items;
  }

  lemma MadeSnoc<G, A, O>(items: seq<T.Item<G, A>>, x: T.Item<G, A>, output: (G, A) -> Option<O>)
    ensures Made(items + [x], output)
        == Made(items, output) + (if output(x.key, x.val).Some? then [output(x.key, x.val).value] else [])
  {
    assert (items + [x])[..|items|] == items;
  }

  // ------------------------------------------------ the operator on table values

  predicate Sized<G, A>(t: T.Table<G, A>) { |t.chains| > 0 }

  /** The flush loop's treatment of one group: evict it or restart its aggregate. */
  function FlushItem<X, G(==), A, O>(q: Query<X, G, A, O>, t: T.Table<G, A>, it: T.Item<G, A>): (r: T.Table<G, A>)
    requires Sized(t)
    ensures Sized(r)
  {
    if !T.Has(t, q.hash, it.key) then t
    else if q.clean(it.key, it.val) then T.Erase(t, q.hash, it.key)
    else T.Put(t, q.hash, it.key, q.reinit(it.key, it.val))
  }

  /** The flush loop over the groups in iteration order. */
  function FlushTable<X, G(==), A, O>(q: Query<X, G, A, O>, t: T.Table<G, A>,
      items: seq<T.Item<G, A>>): (r: T.Table<G, A>)
    requires Sized(t)
    ensures Sized(r)
  {
    if items == [] then t else FlushItem(q, FlushTable(q, t, items[..|items| - 1]), items[|items| - 1])
  }

  function Accept<X, G(==), A, O>(q: Query<X, G, A, O>, t: T.Table<G, A>, i: Input<X>): (r: Result<G, A, O>)
    requires Sized(t)
    ensures Sized(r.t)
  {
    var log := if i.flush then T.Items(t) else [];
    var t1 := FlushTable(q, t, log);
    var out := Made(log, q.output);
    match q.group(i.x)
    case None => Result(t1, log, out)
    case Some(g) =>
      if T.Has(t1, q.hash, g) then Result(T.Put(t1, q.hash, g, q.update(i.x, T.Get(t1, q.hash, g))), log, out)
      else Result(T.Insert(t1, q.hash, g, q.create(i.x)), log, out)
  }

  /** The table after a run. */
  function Run<X, G(==), A, O>(q: Query<X, G, A, O>, ins: seq<Input<X>>): (t: T.Table<G, A>)
    ensures Sized(t)
  {
    if ins == [] then T.Empty(T.BUCKETS) else Accept(q, Run(q, ins[..|ins| - 1]), ins[|ins| - 1]).t
  }

  // ------------------------------------------------ one group on its own

  /** A flush evicts the group or restarts its aggregate. */
  ghost function AfterFlush<X, G, A, O>(q: Query<X, G, A, O>, g: G, a: Option<A>): Option<A> {
    if a.None? || q.clean(g, a.value) then None else Some(q.reinit(g, a.value))
  }

  ghost function AfterTuple<X, G, A, O>(q: Query<X, G, A, O>, g: G, a: Option<A>, x: X): Option<A> {
    if q.group(x) != Some(g) then a else if a.None? then Some(q.create(x)) else Some(q.update(x, a.value))
  }

  /** The aggregate of group g after a run, computed from its own tuples and the flushes alone. */
  ghost function Alone<X, G, A, O>(q: Query<X, G, A, O>, g: G, ins: seq<Input<X>>): Option<A> {
    if ins == [] then None else
    var a := Alone(q, g, ins[..|ins| - 1]);
    var i := ins[|ins| - 1];
    AfterTuple(q, g, if i.flush then AfterFlush(q, g, a) else a, i.x)
  }

  // ------------------------------------------------ the table holds exactly those aggregates

  ghost function Lookup<X, G, A, O>(q: Query<X, G, A, O>, t: T.Table<G, A>, g: G): Option<A>
    requires Sized(t)
  {
    if T.Has(t, q.hash, g) then Some(T.Get(t, q.hash, g)) else None
  }

  ghost predicate Good<X, G, A, O>(q: Query<X, G, A, O>, t: T.Table<G, A>) {
    T.Valid(t, q.hash) && T.UniqueKeys(T.Items(t)) && Sized(t)
  }

  lemma FlushItemLookup<X, G, A, O>(q: Query<X, G, A, O>, t: T.Table<G, A>, it: T.Item<G, A>, g: G)
    requires Good(q, t) && Lookup(q, t, it.key) == Some(it.val)
    ensures Good(q, FlushItem(q, t, it))
    ensures Lookup(q, FlushItem(q, t, it), g) == if g == it.key then AfterFlush(q, g, Some(it.val)) else Lookup(q, t, g)
  {
    hide T.Has, T.Get, T.Put, T.Erase, T.Items, T.Valid, T.UniqueKeys;
    if q.clean(it.key, it.val) {
      L.UniqueErase(t, q.hash, it.key);
      L.HasErase(t, q.hash, it.key, g);
    } else {
      L.UniquePut(t, q.hash, it.key, q.reinit(it.key, it.val));
      L.HasPut(t, q.hash, it.key, q.reinit(it.key, it.val), g);
    }
  }

  ghost predicate Among<G, A>(items: seq<T.Item<G, A>>, g: G) {
    exists i :: 0 <= i < |items| && items[i].key == g
  }

  lemma {:induction false} FlushTableLookup<X, G, A, O>(q: Query<X, G, A, O>, t: T.Table<G, A>,
      items: seq<T.Item<G, A>>, g: G)
    requires Good(q, t) && T.UniqueKeys(items)
    requires forall i :: 0 <= i < |items| ==> Lookup(q, t, items[i].key) == Some(items[i].val)
    ensures Good(q, FlushTable(q, t, items))
    ensures Lookup(q, FlushTable(q, t, items), g)
         == if Among(items, g) then AfterFlush(q, g, Lookup(q, t, g)) else Lookup(q, t, g)
  {
    hide T.Valid, T.Items, FlushItem, Lookup, AfterFlush;
    if items != [] {
      var n := |items| - 1;
      var it := items[n];
      FlushTableLookup(q, t, items[..n], g);
      FlushTableLookup(q, t, items[..n], it.key);
      assert !Among(items[..n], it.key);
      FlushItemLookup(q, FlushTable(q, t, items[..n]), it, g);
      AmongLast(items, g);
    }
  }

  lemma AmongLast<G, A>(items: seq<T.Item<G, A>>, g: G)
    requires items != []
    ensures Among(items, g) <==> Among(items[..|items| - 1], g) || items[|items| - 1].key == g
  {
  }

  /** What iteration visits is what lookup finds. */
  lemma ItemsLookup<X, G, A, O>(q: Query<X, G, A, O>, t: T.Table<G, A>, i: nat)
    requires Good(q, t) && i < |T.Items(t)|
    ensures Lookup(q, t, T.Items(t)[i].key) == Some(T.Items(t)[i].val)
  {
    hide T.Has, T.Get, T.Items, T.Valid;
    var it := T.Items(t)[i];
    T.HasIffStored(t, q.hash, it.key);
    var j: nat :| j < |T.Items(t)| && T.Items(t)[j] == T.Item(it.key, T.Get(t, q.hash, it.key));
  }

  lemma AmongLookup<X, G, A, O>(q: Query<X, G, A, O>, t: T.Table<G, A>, g: G)
    requires Good(q, t)
    ensures Among(T.Items(t), g) <==> Lookup(q, t, g).Some?
  {
    hide T.Has, T.Get, T.Items, T.Valid;
    T.HasIffStored(t, q.hash, g);
  }

  /** A flush treats every stored group once. */
  lemma FlushLookup<X, G, A, O>(q: Query<X, G, A, O>, t: T.Table<G, A>, g: G)
    requires Good(q, t)
    ensures Good(q, FlushTable(q, t, T.Items(t)))
    ensures Lookup(q, FlushTable(q, t, T.Items(t)), g) == AfterFlush(q, g, Lookup(q, t, g))
  {
    hide T.Has, T.Get, T.Items, T.Valid, FlushTable, Lookup;
    forall i | 0 <= i < |T.Items(t)| ensures Lookup(q, t, T.Items(t)[i].key) == Some(T.Items(t)[i].val) {
      ItemsLookup(q, t, i);
    }
    FlushTableLookup(q, t, T.Items(t), g);
    AmongLookup(q, t, g);
  }

  lemma TupleLookup<X, G, A, O>(q: Query<X, G, A, O>, t: T.Table<G, A>, h: G, v: A, g: G)
    requires Good(q, t)
    ensures T.Has(t, q.hash, h) ==>
              var r := T.Put(t, q.hash, h, v);
              Good(q, r) && Lookup(q, r, g) == if g == h then Some(v) else Lookup(q, t, g)
    ensures !T.Has(t, q.hash, h) ==>
              var r := T.Insert(t, q.hash, h, v);
              Good(q, r) && Lookup(q, r, g) == if g == h then Some(v) else Lookup(q, t, g)
  {
    hide T.Has, T.Get, T.Put, T.Insert, T.Items, T.Valid, T.UniqueKeys;
    if T.Has(t, q.hash, h) {
      L.UniquePut(t, q.hash, h, v);
      PutSized(t, q.hash, h, v);
      L.HasPut(t, q.hash, h, v, g);
    } else {
      T.UniqueInsert(t, q.hash, h, v);
      InsertSized(t, q.hash, h, v);
      L.HasInsert(t, q.hash, h, v, g);
    }
  }

  lemma PutSized<G, A>(t: T.Table<G, A>, hash: G -> nat, h: G, v: A)
    requires Sized(t) && T.Has(t, hash, h)
    ensures Sized(T.Put(t, hash, h, v))
  {
  }

  lemma InsertSized<G, A>(t: T.Table<G, A>, hash: G -> nat, h: G, v: A)
    requires Sized(t)
    ensures Sized(T.Insert(t, hash, h, v))
  {
  }

  lemma AcceptLookup<X, G, A, O>(q: Query<X, G, A, O>, t: T.Table<G, A>, i: Input<X>, g: G)
    requires Good(q, t)
    ensures var a := Lookup(q, t, g);
            && Good(q, Accept(q, t, i).t)
            && Lookup(q, Accept(q, t, i).t, g) == AfterTuple(q, g, if i.flush then AfterFlush(q, g, a) else a, i.x)
  {
    hide T.Has, T.Get, T.Put, T.Insert, T.Items, T.Valid, T.UniqueKeys, FlushItem, AfterFlush, FlushTable;
    if i.flush { FlushLookup(q, t, g); } else { FlushNothing(q, t); }
    var t1 := FlushTable(q, t, if i.flush then T.Items(t) else []);
    match q.group(i.x) {
      case None =>
      case Some(h) =>
        TupleLookup(q, t1, h, if T.Has(t1, q.hash, h) then q.update(i.x, T.Get(t1, q.hash, h)) else q.create(i.x), g);
    }
  }

  lemma FlushNothing<X, G, A, O>(q: Query<X, G, A, O>, t: T.Table<G, A>)
    requires Sized(t)
    ensures FlushTable(q, t, []) == t
  {
  }

  /** In every run the table holds, for every group, exactly the aggregate that the group would have alone. */
  lemma {:induction false} RunIsAlone<X, G, A, O>(q: Query<X, G, A, O>, ins: seq<Input<X>>, g: G)
    ensures Good(q, Run(q, ins)) && Lookup(q, Run(q, ins), g) == Alone(q, g, ins)
  {
    if ins == [] {
      EmptyGood(q, g);
    } else {
      var n := |ins| - 1;
      RunIsAlone(q, ins[..n], g);
      hide Good, Lookup, Accept, AfterTuple, AfterFlush;
      AcceptLookup(q, Run(q, ins[..n]), ins[n], g);
    }
  }

  lemma EmptyGood<X, G, A, O>(q: Query<X, G, A, O>, g: G)
    ensures Good(q, T.Empty(T.BUCKETS)) && Lookup(q, T.Empty(T.BUCKETS), g) == None
  {
    hide T.Has, T.Items;
    L.EmptyHas(T.Empty<G, A>(T.BUCKETS), q.hash, g);
  }

  /**
   * A flush takes every live group exactly once, with its aggregate, and nothing else; its output is one tuple per
   * group whose output can be created, in the same order.
   */
  lemma FlushOutputsAll<X, G, A, O>(q: Query<X, G, A, O>, ins: seq<Input<X>>, x: X, g: G, a: A)
    ensures var r := Accept(q, Run(q, ins), Input(x, true));
            && T.UniqueKeys(r.log) && (T.Item(g, a) in r.log <==> Alone(q, g, ins) == Some(a))
            && r.out == Made(r.log, q.output)
  {
    RunIsAlone(q, ins, g);
    hide T.Has, T.Get, T.Items, T.Valid, Run, Alone, FlushTable, Made;
    var t := Run(q, ins);
    AmongLookup(q, t, g);
    forall i | 0 <= i < |T.Items(t)| ensures Lookup(q, t, T.Items(t)[i].key) == Some(T.Items(t)[i].val) {
      ItemsLookup(q, t, i);
    }
    if Lookup(q, t, g) == Some(a) {
      var i: nat :| i < |T.Items(t)| && T.Items(t)[i].key == g;
      assert T.Items(t)[i] == T.Item(g, a);
    }
  }

  /** An input without a flush outputs nothing and evicts nothing: the table is the old one with the tuple accounted. */
  lemma QuietWithoutFlush<X, G, A, O>(q: Query<X, G, A, O>, t: T.Table<G, A>, x: X, g: G)
    requires Good(q, t)
    ensures var r := Accept(q, t, Input(x, false));
            r.log == [] && r.out == [] && Lookup(q, r.t, g) == AfterTuple(q, g, Lookup(q, t, g), x)
  {
    hide Lookup, AfterTuple, Good, FlushTable, T.Has, T.Get, T.Put, T.Insert;
    AcceptLookup(q, t, Input(x, false), g);
  }

  /** Everything that a run outputs. */
  ghost function RunOut<X, G, A, O>(q: Query<X, G, A, O>, ins: seq<Input<X>>): seq<O> {
    if ins == [] then [] else
    var pre := ins[..|ins| - 1];
    RunOut(q, pre) + Accept(q, Run(q, pre), ins[|ins| - 1]).out
  }

  /** A live group at a flush whose output is o. */
  ghost predicate LiveAt<X, G(!new), A(!new), O>(q: Query<X, G, A, O>, pre: seq<Input<X>>, o: O) {
    exists g, a :: Alone(q, g, pre) == Some(a) && q.output(g, a) == Some(o)
  }

  lemma {:induction false} MadeMember<G, A, O>(items: seq<T.Item<G, A>>, output: (G, A) -> Option<O>, o: O)
    ensures o in Made(items, output) <==>
              exists i :: 0 <= i < |items| && output(items[i].key, items[i].val) == Some(o)
  {
    if items != [] {
      var n := |items| - 1;
      MadeMember(items[..n], output, o);
      if i :| 0 <= i < n && output(items[..n][i].key, items[..n][i].val) == Some(o) {
        assert output(items[i].key, items[i].val) == Some(o);
      }
      if i :| 0 <= i < |items| && output(items[i].key, items[i].val) == Some(o) && i < n {
        assert output(items[..n][i].key, items[..n][i].val) == Some(o);
      }
    }
  }

  lemma FlushOutIff<X, G(!new), A(!new), O>(q: Query<X, G, A, O>, pre: seq<Input<X>>, x: X, o: O)
    ensures o in Accept(q, Run(q, pre), Input(x, true)).out <==> LiveAt(q, pre, o)
  {
    hide Accept, Run, Alone, Made;
    var r := Accept(q, Run(q, pre), Input(x, true));
    FlushIsMade(q, Run(q, pre), x);
    MadeMember(r.log, q.output, o);
    if i :| 0 <= i < |r.log| && q.output(r.log[i].key, r.log[i].val) == Some(o) {
      FlushOutputsAll(q, pre, x, r.log[i].key, r.log[i].val);
      assert r.log[i] == T.Item(r.log[i].key, r.log[i].val);
    }
    if g, a :| Alone(q, g, pre) == Some(a) && q.output(g, a) == Some(o) {
      FlushOutputsAll(q, pre, x, g, a);
      var i :| 0 <= i < |r.log| && r.log[i] == T.Item(g, a);
    }
  }

  lemma FlushIsMade<X, G, A, O>(q: Query<X, G, A, O>, t: T.Table<G, A>, x: X)
    requires Sized(t)
    ensures Accept(q, t, Input(x, true)).out == Made(Accept(q, t, Input(x, true)).log, q.output)
  {
    hide T.Has, T.Get, T.Put, T.Insert, T.Items, FlushTable, Made;
  }

  /** A run outputs o if and only if at some flush a live group, with the aggregate it has alone, makes o. */
  lemma {:induction false} RunOutIff<X, G(!new), A(!new), O>(q: Query<X, G, A, O>, ins: seq<Input<X>>, o: O)
    ensures o in RunOut(q, ins) <==> exists i :: 0 <= i < |ins| && ins[i].flush && LiveAt(q, ins[..i], o)
  {
    hide Accept, Run, LiveAt;
    if ins != [] {
      var n := |ins| - 1;
      var pre := ins[..n];
      RunOutIff(q, pre, o);
      if ins[n].flush {
        FlushOutIff(q, pre, ins[n].x, o);
        assert ins[n] == Input(ins[n].x, true);
      } else {
        NoFlushOut(q, Run(q, pre), ins[n]);
      }
      forall i | 0 <= i < n ensures pre[..i] == ins[..i] && pre[i] == ins[i] {
      }
    }
  }

  lemma NoFlushOut<X, G, A, O>(q: Query<X, G, A, O>, t: T.Table<G, A>, i: Input<X>)
    requires Sized(t) && !i.flush
    ensures Accept(q, t, i).out == []
  {
    hide T.Has, T.Get, T.Put, T.Insert, FlushTable;
  }

  // ------------------------------------------------ the flush as a function of the iteration

  /** After n groups, the iteration is what became of them followed by the rest. */
  lemma {:induction false} FlushTableItems<X, G, A, O>(q: Query<X, G, A, O>, t: T.Table<G, A>, n: nat)
    requires Good(q, t) && n <= |T.Items(t)|
    ensures var all := T.Items(t);
            var r := FlushTable(q, t, all[..n]);
            Good(q, r) && T.Items(r) == Restarted(all[..n], q.clean, q.reinit) + all[n..]
  {
    hide T.Items, FlushItem, Restarted, T.UniqueKeys, T.Valid;
    var all := T.Items(t);
    if n == 0 {
      assert all[..0] == [] && all[0..] == all && [] + all == all;
      FlushNothing(q, t);
      RestartedNil(q.clean, q.reinit);
    } else {
      FlushTableItems(q, t, n - 1);
      var r := FlushTable(q, t, all[..n - 1]);
      var done := Restarted(all[..n - 1], q.clean, q.reinit);
      FlushNext(q, t, n - 1);
      FlushItemItems(q, r, |done|);
      RestartedSnoc(all[..n - 1], all[n - 1], q.clean, q.reinit);
      assert all[..n - 1] + [all[n - 1]] == all[..n];
      Advanced(done, all, n - 1, T.Items(r), q.reinit(all[n - 1].key, all[n - 1].val));
    }
  }

  lemma RestartedNil<G, A>(clean: (G, A) -> bool, reinit: (G, A) -> A)
    ensures Restarted([], clean, reinit) == []
  {
  }

  lemma FlushNext<X, G, A, O>(q: Query<X, G, A, O>, t: T.Table<G, A>, n: nat)
    requires Sized(t) && n < |T.Items(t)|
    ensures var all := T.Items(t); FlushTable(q, t, all[..n + 1]) == FlushItem(q, FlushTable(q, t, all[..n]), all[n])
  {
    hide T.Items, FlushItem;
    var all := T.Items(t);
    assert all[..n + 1][..n] == all[..n];
  }

  /** The two things that can happen to the n-th group. */
  lemma Advanced<G, A>(done: seq<T.Item<G, A>>, all: seq<T.Item<G, A>>, n: nat, items: seq<T.Item<G, A>>, v: A)
    requires n < |all| && items == done + all[n..]
    ensures |done| < |items| && items[|done|] == all[n]
    ensures items[..|done|] + items[|done| + 1..] == (done + []) + all[n + 1..]
    ensures items[|done| := T.Item(all[n].key, v)] == (done + [T.Item(all[n].key, v)]) + all[n + 1..]
  {
    assert all[n..][0] == all[n] && all[n..][1..] == all[n + 1..];
  }

  /** Treating the group at position p of the iteration changes the iteration at that place only. */
  lemma FlushItemItems<X, G, A, O>(q: Query<X, G, A, O>, t: T.Table<G, A>, p: nat)
    requires Good(q, t) && p < |T.Items(t)|
    ensures var items := T.Items(t);
            var it := items[p];
            && Good(q, FlushItem(q, t, it))
            && T.Items(FlushItem(q, t, it)) == if q.clean(it.key, it.val) then items[..p] + items[p + 1..]
                                               else items[p := T.Item(it.key, q.reinit(it.key, it.val))]
  {
    hide T.Items, T.Has, T.Get, T.Put, T.Erase, T.Valid;
    var items := T.Items(t);
    var it := items[p];
    ItemsLookup(q, t, p);
    FlushItemLookup(q, t, it, it.key);
    if q.clean(it.key, it.val) {
      var r := T.EraseItems(t, q.hash, it.key);
      assert r == p;
    } else {
      var r := T.PutItems(t, q.hash, it.key, q.reinit(it.key, it.val));
      assert r == p;
    }
  }

  /** A flush leaves the groups that are not evicted, restarted, in their old order. */
  lemma FlushIsRestart<X, G, A, O>(q: Query<X, G, A, O>, t: T.Table<G, A>)
    requires Good(q, t)
    ensures T.Items(FlushTable(q, t, T.Items(t))) == Restarted(T.Items(t), q.clean, q.reinit)
  {
    hide T.Items, FlushTable, Restarted, T.UniqueKeys, T.Valid;
    var all := T.Items(t);
    FlushTableItems(q, t, |all|);
    assert all[..|all|] == all && all[|all|..] == [];
    assert Restarted(all, q.clean, q.reinit) + [] == Restarted(all, q.clean, q.reinit);
  }
}
