/** The double-buffered group-by operator: one table collects the current epoch while the other is flushed. */
module GroupBy {
  import opened Options
  import opened Grouping
  import T = Table

  /** The functor together with the temporal group-by value of every tuple, status tuples included. */
  datatype Query<!X, !G, !A, O> = Query(f: Functor<X, G, A, O>, epoch: X -> int)

  /** `pos` is the index of flush_pos in the table that is not current; lastGb is the functor's stored epoch. */
  datatype State<G, A> = State(tables: seq<T.Table<G, A>>, curr: nat, finished: bool, pos: nat, lastGb: int)

  datatype Result<G, A> = Result(s: State<G, A>, log: seq<T.Item<G, A>>)

  predicate Sized<G, A>(s: State<G, A>) {
    |s.tables| == 2 && s.curr < 2 && |s.tables[0].chains| > 0 && |s.tables[1].chains| > 0
  }

  function Init<G, A>(): (s: State<G, A>)
    ensures Sized(s)
  {
    State([T.Empty(T.BUCKETS), T.Empty(T.BUCKETS)], 0, true, 0, 0)
  }

  function Current<G, A>(s: State<G, A>): (t: T.Table<G, A>)
    requires Sized(s)
    ensures |t.chains| > 0
  {
    s.tables[s.curr]
  }

  function Old<G, A>(s: State<G, A>): (t: T.Table<G, A>)
    requires Sized(s)
    ensures |t.chains| > 0
  {
    s.tables[1 - s.curr]
  }

  function WithCurrent<G, A>(s: State<G, A>, t: T.Table<G, A>): (r: State<G, A>)
    requires Sized(s) && |t.chains| > 0
    ensures Sized(r)
  {
    s.(tables := s.tables[s.curr := t])
  }

  function Tail<Y>(ys: seq<Y>, p: nat): seq<Y> {
    if p <= |ys| then ys[p..] else []
  }

  /** Clearing the old table leaves flush_pos at its end. */
  function ClearOld<G, A>(s: State<G, A>): (r: State<G, A>)
    requires Sized(s)
    ensures Sized(r)
  {
    s.(tables := s.tables[1 - s.curr := T.Cleared(Old(s))], pos := 0)
  }

  /** Emit at most one group of the old table; clear the table once it is exhausted. */
  function PartialFlush<G, A>(s: State<G, A>): (r: Result<G, A>)
    requires Sized(s)
    ensures Sized(r.s)
  {
    var items := T.Items(Old(s));
    var emit := s.pos < |items|;
    var s1 := if emit then s.(pos := s.pos + 1) else s;
    var log := if emit then [items[s.pos]] else [];
    if s1.pos < |items| then Result(s1, log)
    else Result(ClearOld(s1).(finished := true), log)
  }

  /** Emit what is left of the old table and clear it. */
  function Drain<G, A>(s: State<G, A>): (r: Result<G, A>)
    requires Sized(s)
    ensures Sized(r.s)
  {
    var items := T.Items(Old(s));
    if items == [] then Result(s, []) else Result(ClearOld(s), Tail(items, s.pos))
  }

  /** Drain the old table, then swap the tables and start flushing the one that was current. */
  function FlushOld<G, A>(s: State<G, A>): (r: Result<G, A>)
    requires Sized(s)
    ensures Sized(r.s)
  {
    var r := Drain(s);
    Result(r.s.(pos := 0, curr := 1 - s.curr, finished := false), r.log)
  }

  /** The external flush: everything in the old table, then everything in the current one. */
  function Flush<G, A>(s: State<G, A>): (r: Result<G, A>)
    requires Sized(s)
    ensures Sized(r.s)
  {
    var r := Drain(s);
    var items := T.Items(Current(r.s));
    var s1 := if items == [] then r.s else WithCurrent(r.s, T.Empty(|Current(r.s).chains|));
    Result(s1.(pos := 0, finished := true), r.log + items)
  }

  function Accept<X, G(==), A, O>(q: Query<X, G, A, O>, s: State<G, A>, x: X): (r: Result<G, A>)
    requires Sized(s)
    ensures Sized(r.s)
  {
    var r := if s.finished then Result(s, []) else PartialFlush(s);
    var needs := q.epoch(x) != r.s.lastGb;
    var s1 := r.s.(lastGb := q.epoch(x));
    match q.f.group(x)
    case None =>
      var r2 := if needs then FlushOld(s1) else Result(s1, []);
      Result(r2.s, r.log + r2.log)
    case Some(g) =>
      if T.Has(Current(s1), q.f.hash, g) then
        var a := q.f.update(x, T.Get(Current(s1), q.f.hash, g));
        Result(WithCurrent(s1, T.Put(Current(s1), q.f.hash, g, a)), r.log)
      else
        var r2 := if needs then FlushOld(s1) else Result(s1, []);
        Result(WithCurrent(r2.s, T.Insert(Current(r2.s), q.f.hash, g, q.f.create(x))), r.log + r2.log)
  }

  function Run<X, G(==), A, O>(q: Query<X, G, A, O>, xs: seq<X>): (r: Result<G, A>)
    ensures Sized(r.s)
  {
    if xs == [] then Result(Init(), []) else
    var r1 := Run(q, xs[..|xs| - 1]);
    var r2 := Accept(q, r1.s, xs[|xs| - 1]);
    Result(r2.s, r1.log + r2.log)
  }

  /** The group key of every tuple includes its epoch. */
  ghost predicate KeyedByEpoch<X, G, A, O>(q: Query<X, G, A, O>, xs: seq<X>) {
    forall i :: 0 <= i < |xs| && q.f.group(xs[i]).Some? ==> q.f.window(q.f.group(xs[i]).value) == q.epoch(xs[i])
  }

  // ------------------------------------------------ maximal stretches of one epoch

  ghost function Stretches<X, G, A, O>(q: Query<X, G, A, O>, xs: seq<X>): (ss: seq<seq<X>>)
    ensures |ss| >= 1
  {
    if xs == [] then [[]] else
    var n := |xs| - 1;
    var ss := Stretches(q, xs[..n]);
    if n == 0 || q.epoch(xs[n]) == q.epoch(xs[n - 1]) then ss[|ss| - 1 := ss[|ss| - 1] + [xs[n]]] else ss + [[xs[n]]]
  }

  ghost function Concat<Y>(ss: seq<seq<Y>>): seq<Y> {
    if ss == [] then [] else Concat(ss[..|ss| - 1]) + ss[|ss| - 1]
  }

  /** No other epoch comes between two tuples of one group. */
  ghost predicate GroupsStay<X, G, A, O>(q: Query<X, G, A, O>, xs: seq<X>) {
    forall i, j, k :: 0 <= i < k < j < |xs| && q.f.group(xs[i]).Some? && q.f.group(xs[i]) == q.f.group(xs[j]) ==>
      q.epoch(xs[k]) == q.epoch(xs[i])
  }
}
