/** Every run of the double-buffered group-by outputs the groups of each epoch stretch exactly once. */
module GroupByProofs {
  import opened Options
  import opened Grouping
  import opened GroupBy
  import T = Table

  ghost predicate InEpoch<X, G, A, O>(q: Query<X, G, A, O>, items: seq<T.Item<G, A>>, e: int) {
    forall i :: 0 <= i < |items| ==> q.f.window(items[i].key) == e
  }

  /** The current table holds one epoch; a finished flush has left the old table empty. */
  ghost predicate Good<X, G, A, O>(q: Query<X, G, A, O>, s: State<G, A>) {
    && Sized(s)
    && T.Valid(s.tables[0], q.f.hash) && T.Valid(s.tables[1], q.f.hash)
    && InEpoch(q, T.Items(Current(s)), s.lastGb)
    && (s.finished ==> T.Items(Old(s)) == [])
    && s.pos <= |T.Items(Old(s))|
  }

  /** The groups of earlier epochs that are still to be output. */
  ghost function OldRest<G, A>(s: State<G, A>): seq<T.Item<G, A>>
    requires Sized(s)
  {
    Tail(T.Items(Old(s)), s.pos)
  }

  /** A flush step moves groups from the rest of the old table to the output and leaves the current table alone. */
  ghost predicate Moves<X, G, A, O>(q: Query<X, G, A, O>, s: State<G, A>, r: Result<G, A>) {
    && Sized(s) && Good(q, r.s)
    && OldRest(s) == r.log + OldRest(r.s)
    && Current(r.s) == Current(s) && r.s.lastGb == s.lastGb && r.s.curr == s.curr
  }

  lemma ClearedOk<G, A>(t: T.Table<G, A>, hash: G -> nat)
    requires T.Valid(t, hash)
    ensures T.Valid(T.Cleared(t), hash) && T.Items(T.Cleared(t)) == []
  {
  }

  lemma PartialFlushMoves<X, G, A, O>(q: Query<X, G, A, O>, s: State<G, A>)
    requires Good(q, s)
    ensures Moves(q, s, PartialFlush(s))
  {
    hide T.Items, T.Valid, T.Cleared;
    ClearedOk(Old(s), q.f.hash);
    var items := T.Items(Old(s));
    if s.pos < |items| {
      assert items[s.pos..] == [items[s.pos]] + items[s.pos + 1..];
    }
  }

  lemma DrainMoves<X, G, A, O>(q: Query<X, G, A, O>, s: State<G, A>)
    requires Good(q, s)
    ensures Moves(q, s, Drain(s)) && T.Items(Old(Drain(s).s)) == [] && Drain(s).log == OldRest(s)
  {
    hide T.Items, T.Valid, T.Cleared;
    ClearedOk(Old(s), q.f.hash);
    assert OldRest(s) + [] == OldRest(s);
  }

  lemma DrainFrame<G, A>(s: State<G, A>, e: int)
    requires Sized(s)
    ensures Drain(s.(lastGb := e)) == Result(Drain(s).s.(lastGb := e), Drain(s).log)
  {
    hide T.Items, T.Cleared;
  }

  /** Starting a new epoch e: the old groups are out, the current ones are the next to flush, the new table is empty. */
  lemma FlushOldRotates<X, G, A, O>(q: Query<X, G, A, O>, s: State<G, A>, e: int)
    requires Good(q, s)
    ensures var r := FlushOld(s.(lastGb := e));
            && Good(q, r.s) && r.s.lastGb == e && T.Items(Current(r.s)) == []
            && r.log == OldRest(s) && OldRest(r.s) == T.Items(Current(s))
  {
    hide T.Items, T.Valid, Drain, Good, OldRest, InEpoch;
    DrainMoves(q, s);
    DrainFrame(s, e);
    Swap(q, Drain(s).s, e);
  }

  lemma Swap<X, G, A, O>(q: Query<X, G, A, O>, d: State<G, A>, e: int)
    requires Good(q, d) && T.Items(Old(d)) == []
    ensures var s := d.(lastGb := e, pos := 0, curr := 1 - d.curr, finished := false);
            && Good(q, s) && Current(s) == Old(d) && OldRest(s) == T.Items(Current(d))
  {
    hide T.Items, T.Valid;
  }

  lemma FlushAllOut<X, G, A, O>(q: Query<X, G, A, O>, s: State<G, A>)
    requires Good(q, s)
    ensures var r := Flush(s);
            r.log == OldRest(s) + T.Items(Current(s)) && T.Items(Old(r.s)) == [] && T.Items(Current(r.s)) == []
  {
    hide T.Items, T.Valid, T.Empty, Drain, Tail;
    DrainMoves(q, s);
  }

  // ------------------------------------------------ storing a tuple

  ghost predicate Stored<X, G, A, O>(q: Query<X, G, A, O>, s: State<G, A>, s': State<G, A>, ys: seq<X>) {
    && Sized(s) && Good(q, s') && OldRest(s') == OldRest(s) && s'.lastGb == s.lastGb
    && IsGrouping(q.f, ys, T.Items(Current(s')))
  }

  lemma PutKeeps<X, G, A, O>(q: Query<X, G, A, O>, s: State<G, A>, x: X, g: G, ys: seq<X>)
    requires Good(q, s) && IsGrouping(q.f, ys, T.Items(Current(s)))
    requires q.f.group(x) == Some(g) && T.Has(Current(s), q.f.hash, g)
    ensures var a := q.f.update(x, T.Get(Current(s), q.f.hash, g));
            Stored(q, s, WithCurrent(s, T.Put(Current(s), q.f.hash, g, a)), ys + [x])
  {
    hide T.Items, T.Valid, T.Has, T.Get, T.Put, IsGrouping;
    var t := Current(s);
    var a := q.f.update(x, T.Get(t, q.f.hash, g));
    var p := T.PutItems(t, q.f.hash, g, a);
    GroupingUpdate(q.f, ys, x, g, T.Items(t), p);
    assert q.f.window(T.Items(t)[p].key) == s.lastGb;
  }

  lemma InsertKeeps<X, G, A, O>(q: Query<X, G, A, O>, s: State<G, A>, x: X, g: G, ys: seq<X>)
    requires Good(q, s) && IsGrouping(q.f, ys, T.Items(Current(s)))
    requires q.f.group(x) == Some(g) && !T.Has(Current(s), q.f.hash, g) && q.f.window(g) == s.lastGb
    ensures Stored(q, s, WithCurrent(s, T.Insert(Current(s), q.f.hash, g, q.f.create(x))), ys + [x])
  {
    hide T.Items, T.Valid, T.Has, T.Insert, IsGrouping, InEpoch;
    var t := Current(s);
    var p := T.InsertItems(t, q.f.hash, g, q.f.create(x));
    T.HasIffStored(t, q.f.hash, g);
    assert !HasKey(T.Items(t), g);
    GroupingInsert(q.f, ys, x, g, T.Items(t), p);
    EpochInsert(q, T.Items(t), p, T.Item(g, q.f.create(x)), s.lastGb);
  }

  lemma EpochInsert<X, G, A, O>(q: Query<X, G, A, O>, items: seq<T.Item<G, A>>, p: nat, it: T.Item<G, A>, e: int)
    requires InEpoch(q, items, e) && p <= |items| && q.f.window(it.key) == e
    ensures InEpoch(q, items[..p] + [it] + items[p..], e)
  {
  }

  lemma EmptyLacks<G, A>(t: T.Table<G, A>, hash: G -> nat, g: G)
    requires T.Valid(t, hash) && T.Items(t) == []
    ensures !T.Has(t, hash, g)
  {
    T.HasIffStored(t, hash, g);
  }

  /** A table of another epoch does not hold the group. */
  lemma OtherEpoch<X, G, A, O>(q: Query<X, G, A, O>, t: T.Table<G, A>, e: int, g: G)
    requires T.Valid(t, q.f.hash) && InEpoch(q, T.Items(t), e) && q.f.window(g) != e
    ensures !T.Has(t, q.f.hash, g)
  {
    hide T.Items, T.Valid, T.Has;
    T.HasIffStored(t, q.f.hash, g);
  }

  // ------------------------------------------------ one accepted tuple

  ghost predicate KeyOk<X, G, A, O>(q: Query<X, G, A, O>, x: X) {
    q.f.group(x).Some? ==> q.f.window(q.f.group(x).value) == q.epoch(x)
  }

  /** The state before the tuple is looked at: at most one old group has been output. */
  ghost function Flushed<G, A>(s: State<G, A>): (r: Result<G, A>)
    requires Sized(s)
    ensures Sized(r.s)
  {
    if s.finished then Result(s, []) else PartialFlush(s)
  }

  lemma FlushedMoves<X, G, A, O>(q: Query<X, G, A, O>, s: State<G, A>)
    requires Good(q, s)
    ensures Moves(q, s, Flushed(s))
  {
    hide PartialFlush, OldRest, T.Items, T.Valid;
    if !s.finished {
      PartialFlushMoves(q, s);
    } else {
      assert [] + OldRest(s) == OldRest(s);
    }
  }

  lemma AcceptSame<X, G, A, O>(q: Query<X, G, A, O>, s: State<G, A>, x: X, ys: seq<X>)
    requires Good(q, s) && IsGrouping(q.f, ys, T.Items(Current(s))) && KeyOk(q, x) && q.epoch(x) == s.lastGb
    ensures var r := Accept(q, s, x);
            && Good(q, r.s) && r.s.lastGb == q.epoch(x) && r.log + OldRest(r.s) == OldRest(s)
            && IsGrouping(q.f, ys + [x], T.Items(Current(r.s)))
  {
    hide Good, PartialFlush, OldRest, T.Items, T.Has, T.Get, T.Put, T.Insert, IsGrouping, FlushOld, WithCurrent;
    hide Current;
    FlushedMoves(q, s);
    var s1 := Flushed(s).s;
    assert Flushed(s).log + [] == Flushed(s).log;
    assert s1.(lastGb := q.epoch(x)) == s1;
    match q.f.group(x) {
      case None => GroupingSkip(q.f, ys, x, T.Items(Current(s)));
      case Some(g) =>
        if T.Has(Current(s1), q.f.hash, g) {
          PutKeeps(q, s1, x, g, ys);
        } else {
          InsertKeeps(q, s1, x, g, ys);
        }
    }
  }

  lemma EmptyGrouping<X, G, A, O>(f: Functor<X, G, A, O>)
    ensures IsGrouping(f, [], [])
  {
  }

  /** The table that a new epoch starts with. */
  lemma NewTable<X, G, A, O>(q: Query<X, G, A, O>, s: State<G, A>, x: X)
    requires Good(q, s) && s.lastGb == q.epoch(x) && T.Items(Current(s)) == [] && KeyOk(q, x)
    ensures q.f.group(x).None? ==> IsGrouping(q.f, [x], T.Items(Current(s)))
    ensures q.f.group(x).Some? ==> var g := q.f.group(x).value;
              Stored(q, s, WithCurrent(s, T.Insert(Current(s), q.f.hash, g, q.f.create(x))), [x])
  {
    hide OldRest, T.Items, T.Has, T.Insert, IsGrouping, WithCurrent, T.Valid;
    EmptyGrouping(q.f);
    assert [] + [x] == [x];
    match q.f.group(x) {
      case None => GroupingSkip(q.f, [], x, []);
      case Some(g) =>
        EmptyLacks(Current(s), q.f.hash, g);
        InsertKeeps(q, s, x, g, []);
    }
  }

  lemma AcceptNew<X, G, A, O>(q: Query<X, G, A, O>, s: State<G, A>, x: X)
    requires Good(q, s) && KeyOk(q, x) && q.epoch(x) != s.lastGb
    ensures var r := Accept(q, s, x);
            && Good(q, r.s) && r.s.lastGb == q.epoch(x)
            && r.log == OldRest(s) && OldRest(r.s) == T.Items(Current(s))
            && IsGrouping(q.f, [x], T.Items(Current(r.s)))
  {
    hide Good, PartialFlush, OldRest, T.Items, T.Has, T.Get, T.Put, T.Insert, IsGrouping, FlushOld, WithCurrent;
    hide Current;
    FlushedMoves(q, s);
    var r1 := Flushed(s);
    var s1 := r1.s.(lastGb := q.epoch(x));
    assert Current(s1) == Current(r1.s) by { CurrentFrame(r1.s, q.epoch(x)); }
    FlushOldRotates(q, r1.s, q.epoch(x));
    var r2 := FlushOld(s1);
    NewTable(q, r2.s, x);
    assert (r1.log + r2.log) + OldRest(r2.s) == (r1.log + r2.log) + T.Items(Current(s));
    if q.f.group(x).Some? {
      CurrentEpoch(q, r1.s, q.f.group(x).value);
    }
  }

  lemma AcceptOther<X, G, A, O>(q: Query<X, G, A, O>, s: State<G, A>, x: X)
    requires Good(q, s) && KeyOk(q, x) && q.epoch(x) != s.lastGb
    ensures var r := Accept(q, s, x);
            && Good(q, r.s) && r.s.lastGb == q.epoch(x) && r.log + OldRest(r.s) == OldRest(s) + T.Items(Current(s))
            && IsGrouping(q.f, [x], T.Items(Current(r.s)))
  {
    hide Good, OldRest, T.Items, IsGrouping, Accept, Current, KeyOk;
    AcceptNew(q, s, x);
  }

  lemma CurrentFrame<G, A>(s: State<G, A>, e: int)
    requires Sized(s)
    ensures Current(s.(lastGb := e)) == Current(s)
  {
  }

  lemma CurrentEpoch<X, G, A, O>(q: Query<X, G, A, O>, s: State<G, A>, g: G)
    requires Good(q, s) && q.f.window(g) != s.lastGb
    ensures !T.Has(Current(s), q.f.hash, g)
  {
    hide T.Has, T.Valid, T.Items;
    OtherEpoch(q, Current(s), s.lastGb, g);
  }

  // ------------------------------------------------ whole runs

  lemma ConcatSnoc<Y>(ss: seq<seq<Y>>, s: seq<Y>)
    ensures Concat(ss + [s]) == Concat(ss) + s
  {
    assert (ss + [s])[..|ss|] == ss;
  }

  lemma ConcatLast<Y>(ss: seq<seq<Y>>, s: seq<Y>)
    requires ss != []
    ensures var n := |ss| - 1; ss[n := s][..n] == ss[..n] && Concat(ss) == Concat(ss[..n]) + ss[n]
  {
  }

  ghost predicate PartsOk<X, G, A, O>(q: Query<X, G, A, O>, ss: seq<seq<X>>, parts: seq<seq<T.Item<G, A>>>) {
    |parts| == |ss| && forall n :: 0 <= n < |ss| ==> IsGrouping(q.f, ss[n], parts[n])
  }

  /**
   * At every point of every run there is one list of groups per stretch of equal epochs, the exact grouping of that
   * stretch.  The current table is the last list; the output followed by the unflushed suffix of the old table is the
   * concatenation of the earlier lists.
   */
  lemma {:induction false} RunByStretch<X, G, A, O>(q: Query<X, G, A, O>,
      xs: seq<X>) returns (parts: seq<seq<T.Item<G, A>>>)
    requires KeyedByEpoch(q, xs)
    ensures PartsOk(q, Stretches(q, xs), parts) && |parts| >= 1
    ensures var r := Run(q, xs);
            && Good(q, r.s) && (xs != [] ==> r.s.lastGb == q.epoch(xs[|xs| - 1]))
            && parts[|parts| - 1] == T.Items(Current(r.s))
            && Concat(parts[..|parts| - 1]) == r.log + OldRest(r.s)
  {
    hide Good, OldRest, T.Items, IsGrouping, Accept, Current, Concat, PartsOk, KeyOk, KeyedByEpoch;
    if xs == [] {
      parts := [[]];
      FirstPart(q);
      InitGood(q);
      EmptyGrouping(q.f);
      ConcatNil<T.Item<G, A>>();
    } else {
      var n := |xs| - 1;
      var ys := xs[..n];
      var x := xs[n];
      KeyedParts(q, xs);
      var parts0 := RunByStretch(q, ys);
      PartsLast(q, Stretches(q, ys), parts0);
      var r1 := Run(q, ys);
      var r2 := Accept(q, r1.s, x);
      var ss := Stretches(q, ys);
      var m := |ss| - 1;
      var same := n == 0 || q.epoch(x) == q.epoch(xs[n - 1]);
      if q.epoch(x) == r1.s.lastGb {
        AcceptSame(q, r1.s, x, ss[m]);
        parts := parts0[m := T.Items(Current(r2.s))];
        PartsUpdate(q, ss, parts0, ss[m] + [x], T.Items(Current(r2.s)));
        ConcatLast(parts0, T.Items(Current(r2.s)));
      } else {
        AcceptOther(q, r1.s, x);
        if n == 0 {
          FirstNew(q, x);
          parts := [T.Items(Current(r2.s))];
          PartsUpdate(q, ss, parts0, [x], T.Items(Current(r2.s)));
          assert parts0[0 := T.Items(Current(r2.s))] == parts;
          assert ss == [[]] && [] + [x] == [x];
          assert ss[m := ss[m] + [x]] == [[x]];
          ConcatNil<T.Item<G, A>>();
        } else {
          parts := parts0 + [T.Items(Current(r2.s))];
          PartsSnoc(q, ss, parts0, [x], T.Items(Current(r2.s)));
          assert parts[..|parts| - 1] == parts0;
          ConcatLast(parts0, []);
          Reassoc(r1.log, OldRest(r1.s), T.Items(Current(r1.s)), r2.log, OldRest(r2.s));
        }
      }
      if same || q.epoch(x) == r1.s.lastGb {
        Reassoc(r1.log, OldRest(r1.s), [], r2.log, OldRest(r2.s));
      }
    }
  }

  lemma FirstPart<X, G, A, O>(q: Query<X, G, A, O>)
    ensures PartsOk(q, [[]], [[]])
  {
    hide IsGrouping;
    EmptyGrouping(q.f);
  }

  lemma KeyedParts<X, G, A, O>(q: Query<X, G, A, O>, xs: seq<X>)
    requires KeyedByEpoch(q, xs) && xs != []
    ensures KeyedByEpoch(q, xs[..|xs| - 1]) && KeyOk(q, xs[|xs| - 1])
  {
  }

  lemma PartsLast<X, G, A, O>(q: Query<X, G, A, O>, ss: seq<seq<X>>, parts: seq<seq<T.Item<G, A>>>)
    requires PartsOk(q, ss, parts) && ss != []
    ensures |parts| == |ss| && IsGrouping(q.f, ss[|ss| - 1], parts[|ss| - 1])
  {
    hide IsGrouping;
  }

  lemma PartsUpdate<X, G, A, O>(q: Query<X, G, A, O>, ss: seq<seq<X>>, parts: seq<seq<T.Item<G, A>>>, s: seq<X>,
      p: seq<T.Item<G, A>>)
    requires PartsOk(q, ss, parts) && ss != [] && IsGrouping(q.f, s, p)
    ensures PartsOk(q, ss[|ss| - 1 := s], parts[|ss| - 1 := p])
  {
    hide IsGrouping;
  }

  lemma PartsSnoc<X, G, A, O>(q: Query<X, G, A, O>, ss: seq<seq<X>>, parts: seq<seq<T.Item<G, A>>>, s: seq<X>,
      p: seq<T.Item<G, A>>)
    requires PartsOk(q, ss, parts) && IsGrouping(q.f, s, p)
    ensures PartsOk(q, ss + [s], parts + [p])
  {
    hide IsGrouping;
  }

  lemma Reassoc<Y>(a: seq<Y>, b: seq<Y>, c: seq<Y>, d: seq<Y>, e: seq<Y>)
    ensures d + e == b + c ==> (a + b) + c == (a + d) + e
    ensures c == [] ==> (a + b) + c == a + b && b + c == b
  {
    if d + e == b + c {
      assert (a + b) + c == a + (b + c) && (a + d) + e == a + (d + e);
    }
  }

  lemma ConcatNil<Y>()
    ensures Concat<Y>([]) == [] && Concat<Y>([[]][..0]) == []
  {
  }

  lemma InitGood<X, G, A, O>(q: Query<X, G, A, O>)
    ensures var s := Init<G, A>(); Good(q, s) && T.Items(Current(s)) == [] && OldRest(s) == []
  {
  }

  lemma FirstNew<X, G, A, O>(q: Query<X, G, A, O>, x: X)
    ensures T.Items(Current(Run(q, [x][..0]).s)) == [] && OldRest(Run(q, [x][..0]).s) == []
    ensures Run(q, [x][..0]).log == []
  {
    InitGood(q);
  }
}
