/** Every run of the out-of-order group-by keeps its window tables aligned and loses, repeats or reorders no group. */
module OopProofs {
  import opened Options
  import opened Grouping
  import opened OopGroupBy
  import T = Table

  // ------------------------------------------------ windows

  ghost predicate WindowsIn<X, G, A, O>(f: Functor<X, G, A, O>, items: seq<T.Item<G, A>>, lo: int, hi: int) {
    forall i :: 0 <= i < |items| ==> lo <= f.window(items[i].key) <= hi
  }

  ghost predicate WindowSorted<X, G, A, O>(f: Functor<X, G, A, O>, items: seq<T.Item<G, A>>) {
    forall i, j :: 0 <= i < j < |items| ==> f.window(items[i].key) <= f.window(items[j].key)
  }

  lemma SortedConcat<X, G, A, O>(f: Functor<X, G, A, O>, a: seq<T.Item<G, A>>, b: seq<T.Item<G, A>>, lo: int, m: int,
      hi: int)
    requires WindowSorted(f, a) && WindowSorted(f, b) && WindowsIn(f, a, lo, m) && WindowsIn(f, b, m, hi)
    ensures WindowSorted(f, a + b)
  {
  }

  /** A window table: a valid hash table whose groups all belong to window w. */
  ghost predicate TableOk<X, G, A, O>(f: Functor<X, G, A, O>, t: T.Table<G, A>, w: int) {
    T.Valid(t, f.hash) && WindowsIn(f, T.Items(t), w, w)
  }

  ghost predicate Shape<X, G, A, O>(f: Functor<X, G, A, O>, ts: seq<T.Table<G, A>>, minWid: int) {
    forall k :: 0 <= k < |ts| ==> TableOk(f, ts[k], minWid + k)
  }

  // ------------------------------------------------ what is still to be output

  ghost function AllItems<G, A>(ts: seq<T.Table<G, A>>): seq<T.Item<G, A>> {
    if ts == [] then [] else T.Items(ts[0]) + AllItems(ts[1..])
  }

  ghost function Skip<G, A>(s: State<G, A>): nat {
    if s.finished then 0 else s.pos
  }

  ghost function Tail<Y>(ys: seq<Y>, p: nat): seq<Y> {
    if p <= |ys| then ys[p..] else []
  }

  /** The groups not yet output: those of the first table from flush_pos on, and all later ones. */
  ghost function Rest<G, A>(s: State<G, A>): seq<T.Item<G, A>> {
    Tail(AllItems(s.tables), Skip(s))
  }

  lemma {:induction false} AllConcat<G, A>(a: seq<T.Table<G, A>>, b: seq<T.Table<G, A>>)
    ensures AllItems(a + b) == AllItems(a) + AllItems(b)
  {
    hide T.Items;
    if a == [] {
      assert a + b == b;
    } else {
      assert (a + b)[1..] == a[1..] + b && (a + b)[0] == a[0];
      AllConcat(a[1..], b);
      assert T.Items(a[0]) + (AllItems(a[1..]) + AllItems(b)) == (T.Items(a[0]) + AllItems(a[1..])) + AllItems(b);
    }
  }

  lemma AllOne<G, A>(t: T.Table<G, A>)
    ensures AllItems([t]) == T.Items(t)
  {
    hide T.Items;
    assert AllItems([t][1..]) == [];
    assert T.Items(t) + [] == T.Items(t);
  }

  /** All items around table k, whatever that table is replaced by. */
  lemma AllAt<G, A>(ts: seq<T.Table<G, A>>, k: nat, t: T.Table<G, A>)
    requires k < |ts|
    ensures AllItems(ts[k := t]) == AllItems(ts[..k]) + T.Items(t) + AllItems(ts[k + 1..])
  {
    hide T.Items, AllItems;
    assert ts[k := t] == ts[..k] + [t] + ts[k + 1..];
    AllConcat(ts[..k] + [t], ts[k + 1..]);
    AllConcat(ts[..k], [t]);
    AllOne(t);
  }

  lemma {:induction false} AllMember<G, A>(ts: seq<T.Table<G, A>>, x: T.Item<G, A>) returns (j: nat)
    requires x in AllItems(ts)
    ensures j < |ts| && x in T.Items(ts[j])
  {
    hide T.Items;
    if x in T.Items(ts[0]) {
      j := 0;
    } else {
      var i := AllMember(ts[1..], x);
      assert ts[1..][i] == ts[i + 1];
      j := i + 1;
    }
  }

  lemma {:induction false} AllSorted<X, G, A, O>(f: Functor<X, G, A, O>, ts: seq<T.Table<G, A>>, minWid: int)
    requires Shape(f, ts, minWid)
    ensures WindowSorted(f, AllItems(ts)) && WindowsIn(f, AllItems(ts), minWid, minWid + |ts|)
  {
    hide T.Items, T.Valid;
    if ts != [] {
      ShapeTail(f, ts, minWid);
      AllSorted(f, ts[1..], minWid + 1);
      assert TableOk(f, ts[0], minWid + 0);
      SortedConcat(f, T.Items(ts[0]), AllItems(ts[1..]), minWid, minWid, minWid + |ts|);
    }
  }

  lemma ShapeTail<X, G, A, O>(f: Functor<X, G, A, O>, ts: seq<T.Table<G, A>>, minWid: int)
    requires Shape(f, ts, minWid) && ts != []
    ensures Shape(f, ts[1..], minWid + 1)
  {
    hide TableOk;
    forall k | 0 <= k < |ts[1..]| ensures TableOk(f, ts[1..][k], minWid + 1 + k) {
      assert ts[1..][k] == ts[k + 1] && TableOk(f, ts[k + 1], minWid + (k + 1));
    }
  }

  // ------------------------------------------------ the invariant

  /** Before the first tuple nothing is stored; afterwards there is one table per window from min_wid to max_wid. */
  ghost predicate Control<G, A>(s: State<G, A>) {
    && (|| (s.minWid >= 1 && s.maxWid >= 1 && |s.tables| == s.maxWid - s.minWid + 1)
        || (s.minWid == 0 && s.maxWid == 0 && s.tables == [] && s.finished))
    && (!s.finished ==> s.tables != [] && s.lastGb > s.minWid && s.pos <= |T.Items(s.tables[0])|)
  }

  /** What was output belongs to windows that a punctuation has closed. */
  ghost predicate Closed<X, G, A, O>(f: Functor<X, G, A, O>, s: State<G, A>, log: seq<T.Item<G, A>>) {
    && WindowSorted(f, log)
    && (forall i :: 0 <= i < |log| ==> f.window(log[i].key) <= s.minWid && f.window(log[i].key) < s.lastGb)
  }

  ghost predicate Inv<X, G, A, O>(f: Functor<X, G, A, O>, s: State<G, A>, log: seq<T.Item<G, A>>, xs: seq<X>) {
    && Shape(f, s.tables, s.minWid)
    && Control(s)
    && Closed(f, s, log)
    && IsGrouping(f, xs, log + Rest(s))
  }

  // ------------------------------------------------ flushing

  /** A flush step only moves groups from the rest to the output. */
  ghost predicate Moves<X, G, A, O>(f: Functor<X, G, A, O>, s: State<G, A>, r: Result<G, A>) {
    && Shape(f, r.s.tables, r.s.minWid)
    && Control(r.s)
    && Rest(s) == r.log + Rest(r.s)
    && s.minWid <= r.s.minWid && r.s.lastGb == s.lastGb
    && WindowSorted(f, r.log)
    && (forall i :: 0 <= i < |r.log| ==>
          s.minWid <= f.window(r.log[i].key) <= r.s.minWid && f.window(r.log[i].key) < s.lastGb)
  }

  lemma MovesKeep<X, G, A, O>(f: Functor<X, G, A, O>, s: State<G, A>, r: Result<G, A>, log: seq<T.Item<G, A>>,
      xs: seq<X>)
    requires Inv(f, s, log, xs) && Moves(f, s, r)
    ensures Inv(f, r.s, log + r.log, xs)
  {
    hide Shape, Control, Rest, IsGrouping;
    assert log + (r.log + Rest(r.s)) == (log + r.log) + Rest(r.s);
    if log != [] {
      assert WindowsIn(f, log, f.window(log[0].key), s.minWid);
      assert WindowsIn(f, r.log, s.minWid, r.s.minWid);
      SortedConcat(f, log, r.log, f.window(log[0].key), s.minWid, r.s.minWid);
    } else {
      assert log + r.log == r.log;
    }
  }

  lemma AllFirst<G, A>(ts: seq<T.Table<G, A>>, p: nat)
    requires ts != [] && p <= |T.Items(ts[0])|
    ensures Tail(AllItems(ts), p) == T.Items(ts[0])[p..] + AllItems(ts[1..])
  {
    hide T.Items;
  }

  lemma PartialFlushMoves<X, G, A, O>(f: Functor<X, G, A, O>, s: State<G, A>)
    requires Shape(f, s.tables, s.minWid) && Control(s) && !s.finished
    ensures Moves(f, s, PartialFlush(s))
  {
    hide T.Items, T.Valid, AllItems, Shape, Tail;
    var items := T.Items(s.tables[0]);
    var r := PartialFlush(s);
    FirstWindow(f, s.tables, s.minWid);
    AllFirst(s.tables, s.pos);
    ShapeTail(f, s.tables, s.minWid);
    if s.pos < |items| {
      AllFirst(s.tables, s.pos + 1);
      assert items[s.pos..] == [items[s.pos]] + items[s.pos + 1..];
    }
    if s.pos + 1 >= |items| {
      TailZero(AllItems(s.tables[1..]));
      if s.pos == |items| {
        assert items[s.pos..] == [];
      } else {
        assert items[s.pos..] == [items[s.pos]];
      }
    }
  }

  lemma TailZero<Y>(ys: seq<Y>)
    ensures Tail(ys, 0) == ys
  {
  }

  lemma FirstWindow<X, G, A, O>(f: Functor<X, G, A, O>, ts: seq<T.Table<G, A>>, minWid: int)
    requires Shape(f, ts, minWid) && ts != []
    ensures WindowsIn(f, T.Items(ts[0]), minWid, minWid)
  {
    assert TableOk(f, ts[0], minWid + 0);
  }

  /** Whole windows leave in order, the first one from flush_pos on. */
  lemma {:induction false} FlushWindowsMoves<X, G, A, O>(f: Functor<X, G, A, O>, s: State<G, A>, num: int)
    requires Shape(f, s.tables, s.minWid)
    requires s.tables != [] ==> s.pos <= |T.Items(s.tables[0])|
    ensures var r := FlushWindows(s, num);
            && Shape(f, r.s.tables, r.s.minWid)
            && Tail(AllItems(s.tables), s.pos) == r.log + Tail(AllItems(r.s.tables), r.s.pos)
            && WindowSorted(f, r.log) && WindowsIn(f, r.log, s.minWid, r.s.minWid - 1)
    decreases |s.tables|
  {
    hide T.Items, AllItems, Shape, Tail, WindowsIn, WindowSorted;
    if num > 0 && s.tables != [] {
      var items := T.Items(s.tables[0]);
      var d := DropFirst(s);
      ShapeTail(f, s.tables, s.minWid);
      FlushWindowsMoves(f, d, num - 1);
      FirstWindow(f, s.tables, s.minWid);
      AllFirst(s.tables, s.pos);
      TailZero(AllItems(d.tables));
      var r := FlushWindows(d, num - 1);
      FlushWindowsFrame(d, num - 1);
      JoinLogs(f, items, s.pos, r.log, s.minWid, r.s.minWid - 1);
      assert items[s.pos..] + (r.log + Tail(AllItems(r.s.tables), r.s.pos))
          == (items[s.pos..] + r.log) + Tail(AllItems(r.s.tables), r.s.pos);
    } else {
      NoWindows(f, s.minWid, s.minWid - 1);
      assert [] + Tail(AllItems(s.tables), s.pos) == Tail(AllItems(s.tables), s.pos);
    }
  }

  lemma NoWindows<X, G, A, O>(f: Functor<X, G, A, O>, lo: int, hi: int)
    ensures WindowSorted(f, []) && WindowsIn(f, [], lo, hi)
  {
  }

  lemma JoinLogs<X, G, A, O>(f: Functor<X, G, A, O>, a: seq<T.Item<G, A>>, p: nat, b: seq<T.Item<G, A>>, w: int,
      hi: int)
    requires WindowsIn(f, a, w, w) && p <= |a| && WindowsIn(f, b, w + 1, hi) && WindowSorted(f, b) && w <= hi
    ensures WindowSorted(f, a[p..] + b) && WindowsIn(f, a[p..] + b, w, hi)
  {
  }

  /** How far a flush of whole windows goes. */
  lemma {:induction false} FlushWindowsFrame<G, A>(s: State<G, A>, num: int)
    ensures var r := FlushWindows(s, num).s;
            var n := if num <= 0 then 0 else if num <= |s.tables| then num else |s.tables|;
            && r.tables == s.tables[n..] && r.minWid == s.minWid + n && r.pos == (if n == 0 then s.pos else 0)
            && r.maxWid == s.maxWid && r.finished == s.finished && r.lastGb == s.lastGb
    decreases |s.tables|
  {
    hide T.Items;
    if num > 0 && s.tables != [] {
      FlushWindowsFrame(DropFirst(s), num - 1);
    }
  }

  lemma FlushOldMoves<X, G, A, O>(f: Functor<X, G, A, O>, s: State<G, A>)
    requires Shape(f, s.tables, s.minWid) && Control(s) && !s.finished
    ensures Moves(f, s, FlushOld(s))
  {
    hide T.Items, AllItems, Shape, Tail;
    FlushWindowsMoves(f, s, s.lastGb - s.minWid);
    FlushWindowsFrame(s, s.lastGb - s.minWid);
  }

  /** The external flush outputs everything that is left, in window order. */
  lemma FlushAllEmpties<X, G, A, O>(f: Functor<X, G, A, O>, s: State<G, A>)
    requires Shape(f, s.tables, s.minWid) && Control(s)
    ensures FlushAll(s).log == Rest(s) && FlushAll(s).s.tables == []
  {
    hide T.Items, AllItems, Shape, Tail;
    var s1 := FromStart(s);
    NoItems<G, A>(Skip(s));
    NoItems<G, A>(s1.pos);
    FlushWindowsMoves(f, s1, |s.tables|);
    FlushWindowsFrame(s1, |s.tables|);
    var r := FlushWindows(s1, |s.tables|);
    NoItems<G, A>(r.s.pos);
    assert r.log + [] == r.log;
  }

  lemma NoItems<G, A>(p: nat)
    ensures Tail(AllItems<G, A>([]), p) == []
  {
  }

  // ------------------------------------------------ punctuations

  lemma PunctKeeps<X, G, A, O>(f: Functor<X, G, A, O>, s0: State<G, A>, w: int, log: seq<T.Item<G, A>>, xs: seq<X>)
    requires Inv(f, s0, log, xs) && s0.lastGb <= w
    ensures var r := AddPunct(f, s0, w); Inv(f, r.s, log + r.log, xs) && r.s.lastGb == w
  {
    hide Shape, IsGrouping, AllItems, Tail, T.Items, WindowSorted;
    var s := Note(s0, w);
    assert log + [] == log;
    assert Inv(f, s, log, xs);
    if s.tables != [] && s.needs && NotBehind(f, s) {
      var r := if s.finished then Result(s, []) else FlushOld(s);
      if !s.finished {
        FlushOldMoves(f, s);
        MovesKeep(f, s, r, log, xs);
        FlushWindowsFrame(s, s.lastGb - s.minWid);
      }
      Restart(f, r.s, log + r.log, xs);
    }
  }

  /** Starting the next flush at the beginning of the first table. */
  lemma Restart<X, G, A, O>(f: Functor<X, G, A, O>, s: State<G, A>, log: seq<T.Item<G, A>>, xs: seq<X>)
    requires Inv(f, s, log, xs) && s.finished
    ensures var s1 := if s.lastGb > s.minWid && s.tables != [] then s.(finished := false) else s;
            Inv(f, if s1.tables != [] then s1.(pos := 0) else s1, log, xs)
  {
    hide Shape, IsGrouping, AllItems, Tail, T.Items, WindowSorted;
  }

  // ------------------------------------------------ tuples

  lemma {:induction false} EmptiesOk<X, G, A, O>(f: Functor<X, G, A, O>, n: int, minWid: int)
    ensures |Empties<G, A>(n)| == (if n <= 0 then 0 else n)
    ensures AllItems(Empties<G, A>(n)) == []
    ensures Shape(f, Empties<G, A>(n), minWid)
  {
    hide T.Items, T.Empty, TableOk;
    if n > 0 {
      EmptiesOk(f, n - 1, minWid);
      var t := T.Empty<G, A>(T.BUCKETS);
      EmptyOk(f, minWid + n - 1);
      OneShape(f, t, minWid + n - 1);
      ShapeConcat(f, Empties<G, A>(n - 1), [t], minWid);
      AllConcat(Empties<G, A>(n - 1), [t]);
      AllOne(t);
    } else {
      NoItems<G, A>(0);
    }
  }

  lemma EmptyOk<X, G, A, O>(f: Functor<X, G, A, O>, w: int)
    ensures TableOk(f, T.Empty(T.BUCKETS), w)
  {
  }

  lemma ShapeConcat<X, G, A, O>(f: Functor<X, G, A, O>, a: seq<T.Table<G, A>>, b: seq<T.Table<G, A>>, minWid: int)
    requires Shape(f, a, minWid) && Shape(f, b, minWid + |a|)
    ensures Shape(f, a + b, minWid)
  {
    hide TableOk;
    forall k | 0 <= k < |a + b| ensures TableOk(f, (a + b)[k], minWid + k) {
      if k >= |a| { assert TableOk(f, b[k - |a|], minWid + |a| + (k - |a|)); }
    }
  }

  /** Extending the tables at either end adds no groups and keeps the alignment of windows. */
  lemma ExtendKeeps<X, G, A, O>(f: Functor<X, G, A, O>, s: State<G, A>, w: int, log: seq<T.Item<G, A>>, xs: seq<X>)
    requires Inv(f, s, log, xs) && w >= 1 && w >= s.lastGb
    ensures var r := Extend(s, w);
            && Inv(f, r, log, xs) && r.lastGb == s.lastGb
            && r.minWid <= w <= r.maxWid && |r.tables| == r.maxWid - r.minWid + 1
            && (!r.finished ==> r.minWid < w)
  {
    hide Inv, Extend, Empties, T.Empty;
    var s1 := ExtendStart(f, s, w, log, xs);
    var s2 := ExtendFront(f, s1, w, log, xs);
    var s3 := ExtendBack(f, s2, w, log, xs);
    ExtendIs(s, w, s1, s2, s3);
  }

  lemma ExtendIs<G, A>(s: State<G, A>, w: int, s1: State<G, A>, s2: State<G, A>, s3: State<G, A>)
    requires s1 == if s.maxWid == 0 && s.minWid == 0
                   then s.(tables := s.tables + [T.Empty(T.BUCKETS)], minWid := w, maxWid := w) else s
    requires s2 == if w < s1.minWid then s1.(tables := Empties(s1.minWid - w) + s1.tables, minWid := w) else s1
    requires s3 == if w > s2.maxWid then s2.(tables := s2.tables + Empties(w - s2.maxWid), maxWid := w) else s2
    ensures Extend(s, w) == s3
  {
  }

  ghost predicate Reaches<G, A>(s: State<G, A>, w: int) {
    && s.minWid >= 1 && s.maxWid >= 1 && |s.tables| == s.maxWid - s.minWid + 1
    && (!s.finished ==> s.minWid < w)
  }

  lemma ExtendStart<X, G, A, O>(f: Functor<X, G, A, O>, s: State<G, A>, w: int, log: seq<T.Item<G, A>>, xs: seq<X>)
    returns (s1: State<G, A>)
    requires Inv(f, s, log, xs) && w >= 1 && w >= s.lastGb
    ensures s1 == if s.maxWid == 0 && s.minWid == 0
                  then s.(tables := s.tables + [T.Empty(T.BUCKETS)], minWid := w, maxWid := w) else s
    ensures Inv(f, s1, log, xs) && Reaches(s1, w) && s1.lastGb == s.lastGb
  {
    hide Empties, T.Items, T.Empty, Shape, AllItems, IsGrouping, WindowSorted, TableOk;
    s1 := s;
    if s.maxWid == 0 && s.minWid == 0 {
      var t := T.Empty<G, A>(T.BUCKETS);
      s1 := s.(tables := s.tables + [t], minWid := w, maxWid := w);
      assert s.tables + [t] == [t];
      EmptyOk(f, w);
      OneShape(f, t, w);
      AllOne(t);
      NoItems<G, A>(0);
    }
  }

  lemma OneShape<X, G, A, O>(f: Functor<X, G, A, O>, t: T.Table<G, A>, w: int)
    requires TableOk(f, t, w)
    ensures Shape(f, [t], w)
  {
    hide TableOk;
    assert w + 0 == w;
  }

  lemma ExtendFront<X, G, A, O>(f: Functor<X, G, A, O>, s: State<G, A>, w: int, log: seq<T.Item<G, A>>, xs: seq<X>)
    returns (s1: State<G, A>)
    requires Inv(f, s, log, xs) && w >= 1 && w >= s.lastGb && Reaches(s, w)
    ensures s1 == if w < s.minWid then s.(tables := Empties(s.minWid - w) + s.tables, minWid := w) else s
    ensures Inv(f, s1, log, xs) && Reaches(s1, w) && s1.minWid <= w && s1.lastGb == s.lastGb
  {
    hide Empties, T.Items, T.Empty, Shape, AllItems, IsGrouping, WindowSorted, TableOk;
    s1 := s;
    if w < s.minWid {
      s1 := s.(tables := Empties(s.minWid - w) + s.tables, minWid := w);
      EmptiesOk(f, s.minWid - w, w);
      ShapeConcat(f, Empties(s.minWid - w), s.tables, w);
      AllConcat(Empties(s.minWid - w), s.tables);
      assert [] + AllItems(s.tables) == AllItems(s.tables);
    }
  }

  lemma ExtendBack<X, G, A, O>(f: Functor<X, G, A, O>, s: State<G, A>, w: int, log: seq<T.Item<G, A>>, xs: seq<X>)
    returns (s1: State<G, A>)
    requires Inv(f, s, log, xs) && Reaches(s, w) && s.minWid <= w
    ensures s1 == if w > s.maxWid then s.(tables := s.tables + Empties(w - s.maxWid), maxWid := w) else s
    ensures Inv(f, s1, log, xs) && Reaches(s1, w) && s1.minWid <= w <= s1.maxWid && s1.lastGb == s.lastGb
  {
    hide Empties, T.Items, T.Empty, Shape, AllItems, IsGrouping, WindowSorted, TableOk;
    s1 := s;
    if w > s.maxWid {
      s1 := s.(tables := s.tables + Empties(w - s.maxWid), maxWid := w);
      EmptiesOk(f, w - s.maxWid, s.minWid + |s.tables|);
      ShapeConcat(f, s.tables, Empties(w - s.maxWid), s.minWid);
      AllConcat(s.tables, Empties(w - s.maxWid));
      assert AllItems(s.tables) + [] == AllItems(s.tables);
    }
  }

  /** A table after absorbing a tuple: one group updated, or one new group at some place. */
  lemma AbsorbItems<X, G, A, O>(f: Functor<X, G, A, O>, t: T.Table<G, A>, x: X, g: G, w: int) returns (p: nat)
    requires TableOk(f, t, w) && f.window(g) == w
    ensures TableOk(f, Absorb(f, t, x, g), w)
    ensures p <= |T.Items(t)|
    ensures T.Has(t, f.hash, g) ==>
              && p < |T.Items(t)| && T.Items(t)[p].key == g
              && T.Items(Absorb(f, t, x, g)) == T.Items(t)[p := T.Item(g, f.update(x, T.Items(t)[p].val))]
    ensures !T.Has(t, f.hash, g) ==>
              && (forall y :: y in T.Items(t) ==> y.key != g)
              && T.Items(Absorb(f, t, x, g)) == T.Items(t)[..p] + [T.Item(g, f.create(x))] + T.Items(t)[p..]
  {
    hide T.Items, T.Has, T.Get, T.Put, T.Insert, T.UsedOk, T.Placed;
    if T.Has(t, f.hash, g) {
      p := T.PutItems(t, f.hash, g, f.update(x, T.Get(t, f.hash, g)));
    } else {
      T.HasIffStored(t, f.hash, g);
      p := T.InsertItems(t, f.hash, g, f.create(x));
    }
  }

  /** Replacing one stretch of the rest, at or after the flush position. */
  lemma TailStretch<Y>(log: seq<Y>, a: seq<Y>, m: seq<Y>, b: seq<Y>, p: nat, m': seq<Y>)
    requires p <= |a|
    ensures log + Tail(a + m + b, p) == (log + a[p..]) + m + b
    ensures log + Tail(a + m' + b, p) == (log + a[p..]) + m' + b
  {
    assert Tail(a + m + b, p) == a[p..] + m + b;
    assert Tail(a + m' + b, p) == a[p..] + m' + b;
  }

  lemma UpdateStretch<Y>(pre: seq<Y>, m: seq<Y>, b: seq<Y>, q: nat, y: Y)
    requires q < |m|
    ensures pre + m[q := y] + b == (pre + m + b)[|pre| + q := y]
    ensures (pre + m + b)[|pre| + q] == m[q]
  {
  }

  lemma InsertStretch<Y>(pre: seq<Y>, m: seq<Y>, b: seq<Y>, q: nat, y: Y)
    requires q <= |m|
    ensures var s := pre + m + b; pre + (m[..q] + [y] + m[q..]) + b == s[..|pre| + q] + [y] + s[|pre| + q..]
  {
  }

  /** The flush position lies before table k. */
  lemma SkipBefore<G, A>(s: State<G, A>, k: nat)
    requires Control(s) && k < |s.tables| && (!s.finished ==> k > 0)
    ensures Skip(s) <= |AllItems(s.tables[..k])|
  {
    hide T.Items;
    if !s.finished {
      assert s.tables[..k][0] == s.tables[0];
    }
  }

  lemma ShapeUpdate<X, G, A, O>(f: Functor<X, G, A, O>, ts: seq<T.Table<G, A>>, minWid: int, k: nat, t: T.Table<G, A>)
    requires Shape(f, ts, minWid) && k < |ts| && TableOk(f, t, minWid + k)
    ensures Shape(f, ts[k := t], minWid)
  {
    hide TableOk;
  }

  /** A group of an open window that its table does not hold is nowhere: not output, not in another table. */
  lemma AbsentEverywhere<X, G, A, O>(f: Functor<X, G, A, O>, s: State<G, A>, log: seq<T.Item<G, A>>, g: G, k: nat)
    requires Shape(f, s.tables, s.minWid) && Closed(f, s, log)
    requires k < |s.tables| && f.window(g) == s.minWid + k && f.window(g) >= s.lastGb
    requires forall y :: y in T.Items(s.tables[k]) ==> y.key != g
    ensures !HasKey(log + Rest(s), g)
  {
    hide T.Items, T.Valid, AllItems, WindowSorted;
    var all := log + Rest(s);
    forall i | 0 <= i < |all| ensures all[i].key != g {
      if i < |log| {
        assert all[i] == log[i];
      } else {
        assert all[i] == AllItems(s.tables)[Skip(s) + i - |log|];
        var j := AllMember(s.tables, all[i]);
        assert TableOk(f, s.tables[j], s.minWid + j);
        var n: nat :| n < |T.Items(s.tables[j])| && T.Items(s.tables[j])[n] == all[i];
      }
    }
  }

  lemma AbsorbRest<X, G, A, O>(f: Functor<X, G, A, O>, s: State<G, A>, k: nat, t: T.Table<G, A>, log: seq<T.Item<G, A>>)
    returns (pre: seq<T.Item<G, A>>, post: seq<T.Item<G, A>>)
    requires Control(s) && k < |s.tables| && (!s.finished ==> k > 0)
    ensures log + Rest(s) == pre + T.Items(s.tables[k]) + post
    ensures log + Rest(s.(tables := s.tables[k := t], needs := false)) == pre + T.Items(t) + post
  {
    hide T.Items, AllItems, Tail, Control;
    var a, b, p := AllItems(s.tables[..k]), AllItems(s.tables[k + 1..]), Skip(s);
    SkipBefore(s, k);
    AllAt(s.tables, k, t);
    AllAt(s.tables, k, s.tables[k]);
    assert s.tables[k := s.tables[k]] == s.tables;
    TailStretch(log, a, T.Items(s.tables[k]), b, p, T.Items(t));
    pre, post := log + a[p..], b;
  }

  lemma TupleGrouping<X, G, A, O>(f: Functor<X, G, A, O>, s: State<G, A>, x: X, g: G, k: nat, log: seq<T.Item<G, A>>,
      xs: seq<X>)
    requires Inv(f, s, log, xs) && f.group(x) == Some(g)
    requires k < |s.tables| && f.window(g) == s.minWid + k && f.window(g) >= s.lastGb && (!s.finished ==> k > 0)
    ensures var t := s.tables[k];
            && TableOk(f, t, s.minWid + k) && |t.chains| > 0
            && TableOk(f, Absorb(f, t, x, g), s.minWid + k)
            && IsGrouping(f, xs + [x], log + Rest(s.(tables := s.tables[k := Absorb(f, t, x, g)], needs := false)))
  {
    hide T.Items, T.Has, Absorb, IsGrouping, Rest, Control, Closed, T.UsedOk, T.Placed, WindowsIn;
    var t := s.tables[k];
    assert TableOk(f, t, s.minWid + k);
    var p := AbsorbItems(f, t, x, g, s.minWid + k);
    var pre, post := AbsorbRest(f, s, k, Absorb(f, t, x, g), log);
    var all := log + Rest(s);
    if T.Has(t, f.hash, g) {
      var it := T.Item(g, f.update(x, T.Items(t)[p].val));
      UpdateStretch(pre, T.Items(t), post, p, it);
      GroupingUpdate(f, xs, x, g, all, |pre| + p);
    } else {
      AbsentEverywhere(f, s, log, g, k);
      InsertStretch(pre, T.Items(t), post, p, T.Item(g, f.create(x)));
      GroupingInsert(f, xs, x, g, all, |pre| + p);
    }
  }

  /** The first table is untouched or not being flushed. */
  lemma TupleControl<G, A>(s: State<G, A>, k: nat, t: T.Table<G, A>)
    requires Control(s) && k < |s.tables| && (!s.finished ==> k > 0)
    ensures Control(s.(tables := s.tables[k := t], needs := false))
  {
    hide T.Items;
  }

  lemma TupleKeeps<X, G, A, O>(f: Functor<X, G, A, O>, s: State<G, A>, x: X, g: G, log: seq<T.Item<G, A>>, xs: seq<X>)
    requires Inv(f, s, log, xs) && f.group(x) == Some(g) && f.window(g) >= 1 && f.window(g) >= s.lastGb
    ensures Inv(f, AddTuple(f, s, x, g), log, xs + [x]) && AddTuple(f, s, x, g).lastGb == s.lastGb
  {
    hide T.Items, Absorb, IsGrouping, Rest, Control, Shape, TableOk, WindowSorted, Extend;
    ExtendKeeps(f, s, f.window(g), log, xs);
    var s1 := Extend(s, f.window(g));
    var k := f.window(g) - s1.minWid;
    TupleGrouping(f, s1, x, g, k, log, xs);
    TupleControl(s1, k, Absorb(f, s1.tables[k], x, g));
    ShapeUpdate(f, s1.tables, s1.minWid, k, Absorb(f, s1.tables[k], x, g));
  }

  // ------------------------------------------------ whole runs

  lemma StepKeeps<X, G, A, O>(f: Functor<X, G, A, O>, s: State<G, A>, i: Input<X>, log: seq<T.Item<G, A>>, xs: seq<X>)
    requires Inv(f, s, log, xs) && Timely(f, s.lastGb, i)
    ensures var r := Step(f, s, i);
            && Inv(f, r.s, log + r.log, if i.Data? then xs + [i.x] else xs)
            && r.s.lastGb == (if i.Data? then s.lastGb else i.w)
  {
    hide IsGrouping, Rest, Control, Shape, Closed, AddPunct, AddTuple, PartialFlush;
    var r := if s.finished then Result(s, []) else PartialFlush(s);
    if s.finished {
      assert log + [] == log;
    } else {
      FlushOne(f, s, log, xs);
    }
    match i {
      case Punct(w) =>
        PunctKeeps(f, r.s, w, log + r.log, xs);
        assert (log + r.log) + AddPunct(f, r.s, w).log == log + (r.log + AddPunct(f, r.s, w).log);
      case Data(x) =>
        if f.group(x).None? {
          NeedsFrame(f, r.s, log + r.log, xs);
          GroupingSkip(f, xs, x, log + r.log + Rest(r.s.(needs := false)));
        } else {
          TupleKeeps(f, r.s, x, f.group(x).value, log + r.log, xs);
        }
    }
  }

  lemma FlushOne<X, G, A, O>(f: Functor<X, G, A, O>, s: State<G, A>, log: seq<T.Item<G, A>>, xs: seq<X>)
    requires Inv(f, s, log, xs) && !s.finished
    ensures Inv(f, PartialFlush(s).s, log + PartialFlush(s).log, xs) && PartialFlush(s).s.lastGb == s.lastGb
  {
    hide IsGrouping, Rest, Control, Shape, Closed, PartialFlush;
    PartialFlushMoves(f, s);
    MovesKeep(f, s, PartialFlush(s), log, xs);
  }

  lemma NeedsFrame<X, G, A, O>(f: Functor<X, G, A, O>, s: State<G, A>, log: seq<T.Item<G, A>>, xs: seq<X>)
    requires Inv(f, s, log, xs)
    ensures Inv(f, s.(needs := false), log, xs)
  {
    hide IsGrouping, Shape, T.Items, AllItems, Tail, WindowSorted;
  }

  lemma {:induction false} RunKeeps<X, G, A, O>(f: Functor<X, G, A, O>, ins: seq<Input<X>>)
    requires TimelyRun(f, ins)
    ensures Inv(f, Run(f, ins).s, Run(f, ins).log, Tuples(ins)) && Run(f, ins).s.lastGb == LastPunct(ins)
  {
    hide Inv, Step, Timely;
    if ins == [] {
      InitInv(f);
    } else {
      var n := |ins| - 1;
      RunKeeps(f, ins[..n]);
      StepKeeps(f, Run(f, ins[..n]).s, ins[n], Run(f, ins[..n]).log, Tuples(ins[..n]));
    }
  }

  lemma InitInv<X, G, A, O>(f: Functor<X, G, A, O>)
    ensures Inv(f, Init(), [], [])
  {
  }

  /**
   * After the first tuple there is exactly one table per window from min_wid to max_wid, and table k holds window
   * min_wid + k.
   */
  lemma TablesFollowWindows<X, G, A, O>(f: Functor<X, G, A, O>, ins: seq<Input<X>>, i: nat)
    requires TimelyRun(f, ins) && i < |ins| && ins[i].Data? && f.group(ins[i].x).Some?
    ensures var s := Run(f, ins).s;
            && |s.tables| == s.maxWid - s.minWid + 1
            && forall k :: 0 <= k < |s.tables| ==> TableOk(f, s.tables[k], s.minWid + k)
  {
    hide TableOk, IsGrouping, Closed, Rest, Run, TimelyRun, T.Items;
    RunKeeps(f, ins);
    TupleStarts(f, ins, i);
  }

  lemma {:induction false} TupleStarts<X, G, A, O>(f: Functor<X, G, A, O>, ins: seq<Input<X>>, i: nat)
    requires TimelyRun(f, ins) && i < |ins| && ins[i].Data? && f.group(ins[i].x).Some?
    ensures Run(f, ins).s.minWid >= 1
  {
    hide Inv, Step, Timely;
    var n := |ins| - 1;
    var s := Run(f, ins[..n]).s;
    RunKeeps(f, ins[..n]);
    if i < n {
      TupleStarts(f, ins[..n], i);
    }
    StepStarted(f, s, ins[n], Run(f, ins[..n]).log, Tuples(ins[..n]));
  }

  /** min_wid becomes positive with the first tuple and stays so. */
  lemma StepStarted<X, G, A, O>(f: Functor<X, G, A, O>, s: State<G, A>, i: Input<X>, log: seq<T.Item<G, A>>, xs: seq<X>)
    requires Inv(f, s, log, xs) && Timely(f, s.lastGb, i)
    requires s.minWid >= 1 || (i.Data? && f.group(i.x).Some?)
    ensures Step(f, s, i).s.minWid >= 1
  {
    hide IsGrouping, Closed, Rest, Shape, T.Items, AddTuple, FlushOld;
    var r := if s.finished then Result(s, []) else PartialFlush(s);
    assert r.s.minWid >= s.minWid;
    if i.Punct? {
      FlushOldForward(Note(r.s, i.w));
    } else if f.group(i.x).Some? {
      TupleStarted(f, r.s, i.x, f.group(i.x).value);
    }
  }

  lemma FlushOldForward<G, A>(s: State<G, A>)
    ensures FlushOld(s).s.minWid >= s.minWid
  {
    FlushWindowsFrame(s, s.lastGb - s.minWid);
  }

  lemma TupleStarted<X, G, A, O>(f: Functor<X, G, A, O>, s: State<G, A>, x: X, g: G)
    requires f.window(g) >= 1 && (s.minWid >= 1 || (s.minWid == 0 && s.maxWid == 0))
    ensures AddTuple(f, s, x, g).minWid >= 1
  {
    hide Empties, Absorb;
  }

  /**
   * At every point of every timely run, the finalized groups and the stored groups not yet flushed are together the
   * groups of the tuples so far, each exactly once with its full fold.
   */
  lemma RunConserves<X, G, A, O>(f: Functor<X, G, A, O>, ins: seq<Input<X>>)
    requires TimelyRun(f, ins)
    ensures IsGrouping(f, Tuples(ins), Run(f, ins).log + Rest(Run(f, ins).s))
    ensures forall i :: 0 <= i < |Run(f, ins).log| ==> f.window(Run(f, ins).log[i].key) < LastPunct(ins)
  {
    RunKeeps(f, ins);
  }

  /**
   * A run followed by the external flush outputs every group exactly once, complete, in non-decreasing window order.
   */
  lemma EveryGroupOnceInOrder<X, G, A, O>(f: Functor<X, G, A, O>, ins: seq<Input<X>>)
    requires TimelyRun(f, ins)
    ensures var r := Run(f, ins);
            var log := r.log + FlushAll(r.s).log;
            && IsGrouping(f, Tuples(ins), log) && WindowSorted(f, log) && FlushAll(r.s).s.tables == []
  {
    hide *;
    RunKeeps(f, ins);
    var r := Run(f, ins);
    InvParts(f, r.s, r.log, Tuples(ins));
    FlushAllEmpties(f, r.s);
    InOrderAfter(f, r.s, r.log);
  }

  lemma InvParts<X, G, A, O>(f: Functor<X, G, A, O>, s: State<G, A>, log: seq<T.Item<G, A>>, xs: seq<X>)
    requires Inv(f, s, log, xs)
    ensures Shape(f, s.tables, s.minWid) && Control(s) && Closed(f, s, log) && IsGrouping(f, xs, log + Rest(s))
  {
    hide Shape, Control, Closed, IsGrouping, Rest;
  }

  /** What has been output and what is left are together in window order. */
  lemma InOrderAfter<X, G, A, O>(f: Functor<X, G, A, O>, s: State<G, A>, log: seq<T.Item<G, A>>)
    requires Shape(f, s.tables, s.minWid) && Closed(f, s, log)
    ensures WindowSorted(f, log + Rest(s))
  {
    hide Shape, AllItems, Tail, WindowSorted;
    AllSorted(f, s.tables, s.minWid);
    TailSorted(f, AllItems(s.tables), Skip(s), s.minWid, s.minWid + |s.tables|);
    if log != [] {
      LogWindows(f, s, log);
      SortedConcat(f, log, Rest(s), f.window(log[0].key), s.minWid, s.minWid + |s.tables|);
    } else {
      assert log + Rest(s) == Rest(s);
    }
  }

  lemma LogWindows<X, G, A, O>(f: Functor<X, G, A, O>, s: State<G, A>, log: seq<T.Item<G, A>>)
    requires Closed(f, s, log) && log != []
    ensures WindowsIn(f, log, f.window(log[0].key), s.minWid) && WindowSorted(f, log)
  {
  }

  lemma TailSorted<X, G, A, O>(f: Functor<X, G, A, O>, items: seq<T.Item<G, A>>, p: nat, lo: int, hi: int)
    requires WindowSorted(f, items) && WindowsIn(f, items, lo, hi)
    ensures WindowSorted(f, Tail(items, p)) && WindowsIn(f, Tail(items, p), lo, hi)
  {
  }
}
