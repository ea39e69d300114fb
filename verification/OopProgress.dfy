/** Punctuations make groups leave: what each input outputs while windows are flushed, and how long a flush takes. */
module OopProgress {
  import opened Options
  import opened Grouping
  import opened OopGroupBy
  import opened OopProofs
  import T = Table
  import L = TableLaws

  // ------------------------------------------------ how many inputs a flush takes

  /** Inputs that the flush of one window table takes: one per group, and one for an empty table. */
  ghost function Cost<G, A>(t: T.Table<G, A>): nat {
    if T.Items(t) == [] then 1 else |T.Items(t)|
  }

  /** Inputs that the flush of the windows from m up to l takes; a window that has no table yet counts one. */
  ghost function Steps<G, A>(ts: seq<T.Table<G, A>>, m: int, l: int): nat {
    if m >= l then 0 else if ts == [] then l - m else Cost(ts[0]) + Steps(ts[1..], m + 1, l)
  }

  /** A flush under way has not yet passed the first table. */
  ghost predicate Underway<G, A>(s: State<G, A>) {
    !s.finished ==> s.tables != [] && s.pos < Cost(s.tables[0])
  }

  ghost function Left<G, A>(s: State<G, A>): int {
    Steps(s.tables, s.minWid, s.lastGb) - s.pos
  }

  lemma {:induction false} StepsBack<G, A>(ts: seq<T.Table<G, A>>, es: seq<T.Table<G, A>>, m: int, l: int)
    requires forall k :: 0 <= k < |es| ==> T.Items(es[k]) == []
    ensures Steps(ts + es, m, l) == Steps(ts, m, l)
    decreases |ts| + |es|
  {
    hide T.Items;
    if m < l && ts != [] {
      assert (ts + es)[1..] == ts[1..] + es && (ts + es)[0] == ts[0];
      StepsBack(ts[1..], es, m + 1, l);
    } else if m < l && es != [] {
      assert ts + es == es && es[1..] == [] + es[1..];
      StepsBack([], es[1..], m + 1, l);
    }
  }

  lemma {:induction false} StepsUpdate<G, A>(ts: seq<T.Table<G, A>>, m: int, l: int, k: nat, t: T.Table<G, A>)
    requires k < |ts| && m + k >= l
    ensures Steps(ts[k := t], m, l) == Steps(ts, m, l)
    decreases |ts|
  {
    hide T.Items;
    if m < l {
      assert ts[k := t][1..] == ts[1..][k - 1 := t];
      StepsUpdate(ts[1..], m + 1, l, k - 1, t);
    }
  }

  lemma {:induction false} StepsBound<G, A>(ts: seq<T.Table<G, A>>, m: int, l: int)
    requires m <= l
    ensures Steps(ts, m, l) <= |AllItems(ts)| + (l - m)
    decreases |ts|
  {
    hide T.Items;
    if m < l && ts != [] {
      StepsBound(ts[1..], m + 1, l);
    }
  }

  lemma {:induction false} EmptiesEmpty<G, A>(n: int)
    ensures forall k :: 0 <= k < |Empties<G, A>(n)| ==> T.Items(Empties<G, A>(n)[k]) == []
  {
    hide T.Items, T.Empty;
    if n > 0 {
      EmptiesEmpty<G, A>(n - 1);
      EmptyItems<G, A>();
    }
  }

  lemma EmptyItems<G, A>()
    ensures T.Items(T.Empty<G, A>(T.BUCKETS)) == []
  {
  }

  /** A grouping has no more groups than tuples. */
  lemma GroupingSize<X, G, A, O>(f: Functor<X, G, A, O>, xs: seq<X>, items: seq<T.Item<G, A>>)
    requires IsGrouping(f, xs, items)
    ensures |items| <= |xs|
  {
    hide Aggregated;
    var keys := seq(|items|, i requires 0 <= i < |items| => Some(items[i].key));
    var groups := seq(|xs|, i requires 0 <= i < |xs| => f.group(xs[i]));
    forall i | 0 <= i < |keys| ensures keys[i] in groups {
      var k := Witness(f, xs, items[i]);
      assert groups[k] == keys[i];
    }
    L.AtMost(keys, groups);
  }

  lemma Witness<X, G, A, O>(f: Functor<X, G, A, O>, xs: seq<X>, it: T.Item<G, A>) returns (i: nat)
    requires Aggregated(f, xs, it)
    ensures i < |xs| && f.group(xs[i]) == Some(it.key)
  {
    if forall k :: 0 <= k < |xs| ==> f.group(xs[k]) != Some(it.key) {
      MembersNone(f, xs, it.key);
    }
    i :| 0 <= i < |xs| && f.group(xs[i]) == Some(it.key);
  }

  // ------------------------------------------------ what is out

  /** Every group of a window before l is in the output. */
  ghost predicate AllOut<X, G, A, O>(f: Functor<X, G, A, O>, xs: seq<X>, log: seq<T.Item<G, A>>, l: int) {
    forall i :: 0 <= i < |xs| && f.group(xs[i]).Some? && f.window(f.group(xs[i]).value) < l ==>
      HasKey(log, f.group(xs[i]).value)
  }

  /** Nothing of a window before l is left. */
  ghost predicate NoneBelow<X, G, A, O>(f: Functor<X, G, A, O>, s: State<G, A>, l: int) {
    forall i :: 0 <= i < |Rest(s)| ==> f.window(Rest(s)[i].key) >= l
  }

  lemma OutWhenNoneBelow<X, G, A, O>(f: Functor<X, G, A, O>, s: State<G, A>, log: seq<T.Item<G, A>>, xs: seq<X>, l: int)
    requires IsGrouping(f, xs, log + Rest(s)) && NoneBelow(f, s, l)
    ensures AllOut(f, xs, log, l)
  {
    hide Rest, Aggregated, T.UniqueKeys;
    forall i | 0 <= i < |xs| && f.group(xs[i]).Some? && f.window(f.group(xs[i]).value) < l
      ensures HasKey(log, f.group(xs[i]).value)
    {
      var g := f.group(xs[i]).value;
      KeyIn(log, Rest(s), g);
    }
  }

  lemma KeyIn<G, A>(a: seq<T.Item<G, A>>, b: seq<T.Item<G, A>>, g: G)
    ensures HasKey(a + b, g) <==> HasKey(a, g) || HasKey(b, g)
  {
    if k :| 0 <= k < |a| && a[k].key == g { assert (a + b)[k].key == g; }
    if k :| 0 <= k < |b| && b[k].key == g { assert (a + b)[|a| + k].key == g; }
  }

  lemma OutMore<X, G, A, O>(f: Functor<X, G, A, O>, xs: seq<X>, log: seq<T.Item<G, A>>, more: seq<T.Item<G, A>>, l: int,
      m: int)
    requires AllOut(f, xs, log, l) && m <= l
    ensures AllOut(f, xs, log + more, m)
  {
    forall g | HasKey(log, g) ensures HasKey(log + more, g) { KeyIn(log, more, g); }
  }

  /** Only windows from min_wid on are left. */
  lemma RestFrom<X, G, A, O>(f: Functor<X, G, A, O>, s: State<G, A>)
    requires Shape(f, s.tables, s.minWid)
    ensures NoneBelow(f, s, s.minWid) && (s.tables == [] ==> Rest(s) == [])
  {
    hide Shape, T.Items;
    AllSorted(f, s.tables, s.minWid);
    TailSorted(f, AllItems(s.tables), Skip(s), s.minWid, s.minWid + |s.tables|);
    if s.tables == [] { NoItems<G, A>(Skip(s)); }
  }

  // ------------------------------------------------ one input while a flush is under way

  /** The group that leaves next: the first one left, unless the window being flushed is empty. */
  ghost function NextOut<G, A>(s: State<G, A>): seq<T.Item<G, A>> {
    if s.finished || s.tables == [] || T.Items(s.tables[0]) == [] then [] else Rest(s)[..if Rest(s) == [] then 0 else 1]
  }

  lemma StepsFirst<G, A>(ts: seq<T.Table<G, A>>, m: int, l: int)
    requires m < l && ts != []
    ensures Steps(ts, m, l) == Cost(ts[0]) + Steps(ts[1..], m + 1, l)
  {
  }

  /** A partial flush takes one of the inputs left, or is the last one. */
  lemma PartialFlushCounts<X, G, A, O>(f: Functor<X, G, A, O>, s: State<G, A>)
    requires Shape(f, s.tables, s.minWid) && Control(s) && Underway(s) && !s.finished
    ensures var r := PartialFlush(s);
            && Underway(r.s) && r.s.lastGb == s.lastGb && Left(s) >= 1
            && (r.s.finished ==> NoneBelow(f, r.s, s.lastGb))
            && (!r.s.finished ==> Left(r.s) == Left(s) - 1)
  {
    hide Shape, T.Items, NoneBelow, Rest, Steps;
    var r := PartialFlush(s);
    StepsFirst(s.tables, s.minWid, s.lastGb);
    assert Moves(f, s, r) by { PartialFlushMoves(f, s); }
    RestFrom(f, r.s);
    if r.s.finished {
      FinishedBelow(f, r.s, s.lastGb);
    }
  }

  /** A partial flush outputs the next group. */
  lemma PartialFlushOut<X, G, A, O>(f: Functor<X, G, A, O>, s: State<G, A>)
    requires Control(s) && Underway(s) && !s.finished
    ensures PartialFlush(s).log == NextOut(s)
    ensures |NextOut(s)| == if T.Items(s.tables[0]) == [] then 0 else 1
  {
    hide T.Items, AllItems;
    AllFirst(s.tables, s.pos);
  }

  lemma FinishedBelow<X, G, A, O>(f: Functor<X, G, A, O>, s: State<G, A>, l: int)
    requires NoneBelow(f, s, s.minWid) && (s.tables == [] ==> Rest(s) == []) && (s.tables == [] || s.minWid >= l)
    ensures NoneBelow(f, s, l)
  {
    hide Rest;
  }

  /** A tuple of an open window neither shortens nor prolongs the flush. */
  lemma TupleCounts<X, G, A, O>(f: Functor<X, G, A, O>, s: State<G, A>, x: X, g: G)
    requires Control(s) && Underway(s) && !s.finished && f.window(g) >= s.lastGb
    ensures var r := AddTuple(f, s, x, g);
            !r.finished && Underway(r) && r.lastGb == s.lastGb && Left(r) == Left(s)
  {
    hide T.Items, Absorb, Empties, Steps;
    var w := f.window(g);
    var s1 := Extend(s, w);
    assert s.maxWid >= 1;
    if w > s.maxWid {
      EmptiesEmpty<G, A>(w - s.maxWid);
      StepsBack(s.tables, Empties(w - s.maxWid), s.minWid, s.lastGb);
    }
    var k := w - s1.minWid;
    if 0 <= k < |s1.tables| && |s1.tables[k].chains| > 0 {
      StepsUpdate(s1.tables, s1.minWid, s1.lastGb, k, Absorb(f, s1.tables[k], x, g));
    }
  }

  /** A later punctuation outputs the rest of what the earlier one ended, and everything that it ends itself. */
  lemma PunctDrains<X, G, A, O>(f: Functor<X, G, A, O>, s: State<G, A>, w: int)
    requires Shape(f, s.tables, s.minWid) && Control(s) && !s.finished && w > s.lastGb
    ensures var r := AddPunct(f, s, w);
            r.s.finished && r.s.lastGb == w && NoneBelow(f, r.s, w) && r.log == FlushOld(Note(s, w)).log
  {
    hide Shape, T.Items, NoneBelow, Rest, AddPunct, FlushOld;
    var n := Note(s, w);
    FlushOldReaches(n);
    PunctIs(f, s, w);
    assert Moves(f, n, FlushOld(n)) by { FlushOldMoves(f, n); }
    var r := AddPunct(f, s, w);
    RestFrom(f, r.s);
    FinishedBelow(f, r.s, w);
  }

  lemma FlushOldReaches<G, A>(s: State<G, A>)
    requires s.lastGb > s.minWid
    ensures var r := FlushOld(s).s; r.finished && r.lastGb == s.lastGb && (r.tables == [] || r.minWid == s.lastGb)
  {
    hide FlushWindows;
    FlushWindowsFrame(s, s.lastGb - s.minWid);
  }

  lemma PunctIs<X, G, A, O>(f: Functor<X, G, A, O>, s: State<G, A>, w: int)
    requires s.tables != [] && !s.finished && 0 < s.lastGb < w && s.minWid <= s.lastGb
    requires var r := FlushOld(Note(s, w)).s; r.finished && r.lastGb == w && (r.tables == [] || r.minWid == w)
    ensures var r := FlushOld(Note(s, w));
            AddPunct(f, s, w) == Result(if r.s.tables != [] then r.s.(pos := 0) else r.s, r.log)
  {
    hide FlushOld;
  }

  // ------------------------------------------------ one input

  /** The state between the partial flush and the rest of accept_tuple. */
  ghost function Pushed<G, A>(s: State<G, A>): Result<G, A> {
    if s.finished then Result(s, []) else PartialFlush(s)
  }

  /** What the operator keeps about its progress. */
  ghost predicate Progress<X, G, A, O>(f: Functor<X, G, A, O>, s: State<G, A>, log: seq<T.Item<G, A>>, xs: seq<X>) {
    Inv(f, s, log, xs) && Underway(s)
  }

  ghost function After<X>(xs: seq<X>, i: Input<X>): seq<X> {
    if i.Data? then xs + [i.x] else xs
  }

  lemma PushedKeeps<X, G, A, O>(f: Functor<X, G, A, O>, s: State<G, A>, log: seq<T.Item<G, A>>, xs: seq<X>)
    requires Progress(f, s, log, xs)
    ensures Progress(f, Pushed(s).s, log + Pushed(s).log, xs) && Pushed(s).s.lastGb == s.lastGb
    ensures Pushed(s).log == NextOut(s)
  {
    hide IsGrouping, Rest, Shape, Closed, PartialFlush, T.Items;
    if s.finished {
      assert log + [] == log;
    } else {
      FlushOne(f, s, log, xs);
      PartialFlushCounts(f, s);
      PartialFlushOut(f, s);
    }
  }

  lemma InvShape<X, G, A, O>(f: Functor<X, G, A, O>, s: State<G, A>, log: seq<T.Item<G, A>>, xs: seq<X>)
    requires Inv(f, s, log, xs)
    ensures Shape(f, s.tables, s.minWid) && Control(s) && IsGrouping(f, xs, log + Rest(s))
  {
    hide Shape, Control, IsGrouping, Closed, Rest;
  }

  /** A punctuation that ends a window starts a flush unless the one before it lies behind all stored windows. */
  ghost predicate Ignored<X, G, A, O>(f: Functor<X, G, A, O>, s: State<G, A>) {
    s.finished && s.tables != [] && s.lastGb < s.minWid && !f.unsigned32
  }

  /** What a later punctuation does to a state that has seen one. */
  lemma PunctStarts<X, G, A, O>(f: Functor<X, G, A, O>, s: State<G, A>, w: int, log: seq<T.Item<G, A>>, xs: seq<X>)
    requires Progress(f, s, log, xs) && 0 < s.lastGb < w
    ensures var r := AddPunct(f, s, w);
            && Underway(r.s) && r.s.lastGb == w
            && (Ignored(f, s) ==> r == Result(Note(s, w), []))
            && (!Ignored(f, s) && r.s.finished ==> NoneBelow(f, r.s, w))
            && (!r.s.finished ==> s.finished && r.log == [] && r.s.minWid == s.minWid && r.s.pos == 0)
            && (s.finished && s.tables != [] && s.minWid < w ==> (r.s.finished <==> Ignored(f, s)))
  {
    hide Shape, T.Items, NoneBelow, IsGrouping, Closed, FlushOld, Rest;
    InvShape(f, s, log, xs);
    CostPositive<G, A>();
    if !s.finished {
      PunctDrains(f, s, w);
    } else {
      var n := Note(s, w);
      RestFrom(f, n);
      if n.tables == [] || n.minWid >= w {
        FinishedBelow(f, n, w);
        BelowFrame(f, n, w);
      }
    }
  }

  /** The flush position and the flags do not matter while no flush is under way. */
  lemma BelowFrame<X, G, A, O>(f: Functor<X, G, A, O>, s: State<G, A>, l: int)
    requires s.finished && NoneBelow(f, s, l)
    ensures NoneBelow(f, s.(pos := 0), l)
  {
    hide AllItems, Tail;
    assert Rest(s.(pos := 0)) == Rest(s);
  }

  /** A tuple of an open window when no flush is under way. */
  lemma TupleIdle<X, G, A, O>(f: Functor<X, G, A, O>, s: State<G, A>, x: X, g: G)
    requires s.finished
    ensures AddTuple(f, s, x, g).finished
  {
    hide Empties, Absorb;
  }

  /** The part of accept_tuple after the partial flush. */
  ghost function Take<X, G, A, O>(f: Functor<X, G, A, O>, s: State<G, A>, i: Input<X>): Result<G, A> {
    match i
    case Punct(w) => AddPunct(f, s, w)
    case Data(x) =>
      Result(if f.group(x).None? then s.(needs := false) else AddTuple(f, s, x, f.group(x).value), [])
  }

  lemma StepIs<X, G, A, O>(f: Functor<X, G, A, O>, s: State<G, A>, i: Input<X>)
    ensures var p := Pushed(s);
            var r := Take(f, p.s, i);
            Step(f, s, i) == Result(r.s, p.log + r.log)
  {
    hide PartialFlush, AddPunct, AddTuple;
  }

  lemma TakeUnderway<X, G, A, O>(f: Functor<X, G, A, O>, s: State<G, A>, i: Input<X>, log: seq<T.Item<G, A>>,
      xs: seq<X>)
    requires Progress(f, s, log, xs) && Timely(f, s.lastGb, i)
    ensures Underway(Take(f, s, i).s)
  {
    hide Shape, IsGrouping, Closed, Rest, T.Items, AddTuple, NoneBelow, AllItems, Steps, Cost;
    InvShape(f, s, log, xs);
    match i {
      case Punct(w) =>
        if w > s.lastGb && !s.finished {
          PunctDrains(f, s, w);
        }
        CostPositive<G, A>();
      case Data(x) =>
        if f.group(x).Some? {
          if s.finished {
            TupleIdle(f, s, x, f.group(x).value);
          } else {
            TupleCounts(f, s, x, f.group(x).value);
          }
        }
    }
  }

  lemma CostPositive<G, A>()
    ensures forall t: T.Table<G, A> :: Cost(t) > 0
  {
  }

  /** The rest of an input while the flush goes on. */
  lemma TakeCounts<X, G, A, O>(f: Functor<X, G, A, O>, s: State<G, A>, i: Input<X>, log: seq<T.Item<G, A>>, xs: seq<X>)
    requires Progress(f, s, log, xs) && Timely(f, s.lastGb, i) && !s.finished
    ensures var r := Take(f, s, i);
            || (!r.s.finished && r.s.lastGb == s.lastGb && Left(r.s) == Left(s))
            || (i.Punct? && r.s.finished && NoneBelow(f, r.s, i.w) && s.lastGb < i.w)
  {
    hide Shape, IsGrouping, Closed, Rest, T.Items, AddTuple, NoneBelow, Steps;
    InvShape(f, s, log, xs);
    match i {
      case Punct(w) =>
        if w > s.lastGb { PunctDrains(f, s, w); }
      case Data(x) =>
        if f.group(x).Some? { TupleCounts(f, s, x, f.group(x).value); }
    }
  }

  lemma OutAfter<X, G, A, O>(f: Functor<X, G, A, O>, xs: seq<X>, i: Input<X>, log: seq<T.Item<G, A>>,
      more: seq<T.Item<G, A>>, l: int)
    requires AllOut(f, xs, log, l) && Timely(f, l, i)
    ensures AllOut(f, After(xs, i), log + more, l)
  {
    OutMore(f, xs, log, more, l, l);
  }

  /**
   * One input while a flush is under way: it outputs the next group first.  Then either every group of an ended window
   * is out, or the flush is still under way and one input shorter.
   */
  lemma StepProgress<X, G, A, O>(f: Functor<X, G, A, O>, s: State<G, A>, i: Input<X>, log: seq<T.Item<G, A>>,
      xs: seq<X>)
    requires Progress(f, s, log, xs) && Timely(f, s.lastGb, i)
    ensures var r := Step(f, s, i);
            && Progress(f, r.s, log + r.log, After(xs, i)) && NextOut(s) <= r.log
            && (!s.finished ==>
                  || AllOut(f, After(xs, i), log + r.log, s.lastGb)
                  || (!r.s.finished && r.s.lastGb == s.lastGb && Left(r.s) == Left(s) - 1))
  {
    hide Inv, Underway, Take, PartialFlush, NextOut, Left, AllOut, NoneBelow, Step;
    var p := Pushed(s);
    StepKeeps(f, s, i, log, xs);
    PushedKeeps(f, s, log, xs);
    StepIs(f, s, i);
    TakeUnderway(f, p.s, i, log + p.log, xs);
    if !s.finished {
      InvShape(f, s, log, xs);
      PartialFlushCounts(f, s);
      var more := Take(f, p.s, i).log;
      assert (log + p.log) + more == log + (p.log + more);
      if p.s.finished {
        InvShape(f, p.s, log + p.log, xs);
        OutWhenNoneBelow(f, p.s, log + p.log, xs, s.lastGb);
        OutAfter(f, xs, i, log + p.log, more, s.lastGb);
      } else {
        TakeCounts(f, p.s, i, log + p.log, xs);
        if Take(f, p.s, i).s.finished {
          var r := Step(f, s, i);
          InvShape(f, r.s, log + r.log, After(xs, i));
          OutWhenNoneBelow(f, r.s, log + r.log, After(xs, i), i.w);
          OutMore(f, After(xs, i), log + r.log, [], i.w, s.lastGb);
          assert (log + r.log) + [] == log + r.log;
        }
      }
    }
  }

  // ------------------------------------------------ whole runs

  /** A suffix of a run is a run of steps from where the first part ended. */
  lemma RunSnoc<X, G, A, O>(f: Functor<X, G, A, O>, ins: seq<Input<X>>, i: Input<X>)
    ensures Run(f, ins + [i]) == var r1 := Run(f, ins); var r2 := Step(f, r1.s, i); Result(r2.s, r1.log + r2.log)
    ensures TimelyRun(f, ins + [i]) <==> TimelyRun(f, ins) && Timely(f, LastPunct(ins), i)
    ensures Tuples(ins + [i]) == After(Tuples(ins), i)
    ensures LastPunct(ins + [i]) == if i.Punct? then i.w else LastPunct(ins)
  {
    assert (ins + [i])[..|ins|] == ins;
  }

  lemma {:induction false} RunProgress<X, G, A, O>(f: Functor<X, G, A, O>, ins: seq<Input<X>>)
    requires TimelyRun(f, ins)
    ensures Progress(f, Run(f, ins).s, Run(f, ins).log, Tuples(ins)) && Run(f, ins).s.lastGb == LastPunct(ins)
  {
    hide Inv, Step, Timely, Underway;
    RunKeeps(f, ins);
    if ins == [] {
      assert Underway(Init<G, A>()) by { StartUnderway<G, A>(); }
    } else {
      var n := |ins| - 1;
      RunProgress(f, ins[..n]);
      var r := Run(f, ins[..n]);
      StepProgress(f, r.s, ins[n], r.log, Tuples(ins[..n]));
    }
  }

  lemma StartUnderway<G, A>()
    ensures Underway(Init<G, A>())
  {
  }

  lemma {:induction false} TimelyPrefix<X, G, A, O>(f: Functor<X, G, A, O>, ins: seq<Input<X>>, more: seq<Input<X>>)
    requires TimelyRun(f, ins + more)
    ensures TimelyRun(f, ins)
  {
    if more == [] {
      assert ins + more == ins;
    } else {
      var n := |more| - 1;
      assert ins + more == (ins + more[..n]) + [more[n]];
      RunSnoc(f, ins + more[..n], more[n]);
      TimelyPrefix(f, ins, more[..n]);
    }
  }

  /** Once the groups of ended windows are out they stay out, and no tuple adds one. */
  lemma {:induction false} OutStays<X, G, A, O>(f: Functor<X, G, A, O>, ins: seq<Input<X>>, more: seq<Input<X>>, l: int)
    requires TimelyRun(f, ins + more) && l <= LastPunct(ins) && AllOut(f, Tuples(ins), Run(f, ins).log, l)
    ensures AllOut(f, Tuples(ins + more), Run(f, ins + more).log, l) && LastPunct(ins) <= LastPunct(ins + more)
  {
    hide Run, TimelyRun, Tuples, LastPunct, Step, AllOut;
    if more == [] {
      assert ins + more == ins;
    } else {
      var n := |more| - 1;
      var pre := ins + more[..n];
      assert ins + more == pre + [more[n]];
      RunSnoc(f, pre, more[n]);
      OutStays(f, ins, more[..n], l);
      var r := Run(f, pre);
      TimelyLower(f, l, LastPunct(pre), more[n]);
      OutAfter(f, Tuples(pre), more[n], r.log, Step(f, r.s, more[n]).log, l);
    }
  }

  lemma TimelyLower<X, G, A, O>(f: Functor<X, G, A, O>, l: int, last: int, i: Input<X>)
    requires Timely(f, last, i) && l <= last
    ensures Timely(f, l, i) && (i.Punct? ==> last <= i.w)
  {
  }

  /** A flush under way is over after as many inputs as it has left; then every group of an ended window is out. */
  lemma {:induction false} FlushEnds<X, G, A, O>(f: Functor<X, G, A, O>, ins: seq<Input<X>>, more: seq<Input<X>>)
    requires TimelyRun(f, ins + more) && !Run(f, ins).s.finished && |more| >= Left(Run(f, ins).s)
    ensures AllOut(f, Tuples(ins + more), Run(f, ins + more).log, LastPunct(ins))
    decreases |more|
  {
    hide Run, TimelyRun, Tuples, LastPunct, Step, AllOut, Progress, Left;
    TimelyPrefix(f, ins, more);
    RunProgress(f, ins);
    var r := Run(f, ins);
    LeftPositive(f, r.s, r.log, Tuples(ins));
    var next, rest := ins + [more[0]], more[1..];
    assert ins + more == next + rest;
    RunSnoc(f, ins, more[0]);
    TimelyPrefix(f, next, rest);
    StepProgress(f, r.s, more[0], r.log, Tuples(ins));
    if AllOut(f, Tuples(next), Run(f, next).log, LastPunct(ins)) {
      TimelyLower(f, LastPunct(ins), LastPunct(ins), more[0]);
      OutStays(f, next, rest, LastPunct(ins));
    } else {
      FlushEnds(f, next, rest);
      RunProgress(f, next);
    }
  }

  lemma LeftPositive<X, G, A, O>(f: Functor<X, G, A, O>, s: State<G, A>, log: seq<T.Item<G, A>>, xs: seq<X>)
    requires Progress(f, s, log, xs) && !s.finished
    ensures Left(s) >= 1
  {
    hide Shape, IsGrouping, Closed, Rest, T.Items;
  }

  /** The flush has at most as many inputs left as there are groups and windows to flush. */
  lemma LeftBound<X, G, A, O>(f: Functor<X, G, A, O>, s: State<G, A>, log: seq<T.Item<G, A>>, xs: seq<X>)
    requires Progress(f, s, log, xs) && !s.finished
    ensures Left(s) <= |xs| + s.lastGb - s.minWid && s.minWid >= 1
  {
    hide Shape, Closed, T.Items, Steps, AllItems;
    InvShape(f, s, log, xs);
    GroupingSize(f, xs, log + Rest(s));
    StepsBound(s.tables, s.minWid, s.lastGb);
    FirstItems(s.tables);
  }

  lemma FirstItems<G, A>(ts: seq<T.Table<G, A>>)
    requires ts != []
    ensures |T.Items(ts[0])| <= |AllItems(ts)|
  {
  }

  /** A group that is not out keeps its window from being passed. */
  lemma NotPassed<X, G, A, O>(f: Functor<X, G, A, O>, s: State<G, A>, log: seq<T.Item<G, A>>, xs: seq<X>, l: int)
    requires Progress(f, s, log, xs) && !AllOut(f, xs, log, l)
    ensures s.tables != [] && s.minWid < l
  {
    hide Shape, Control, IsGrouping, Closed, Rest, Underway, AllOut, NoneBelow;
    InvShape(f, s, log, xs);
    RestFrom(f, s);
    if s.tables == [] || s.minWid >= l {
      FinishedBelow(f, s, l);
      OutWhenNoneBelow(f, s, log, xs, l);
    }
  }

  /**
   * A punctuation w after an earlier one: every window up to the earlier one is out, or a flush of everything below w
   * is under way.  For a temporal variable of 32-bit unsigned type the first alternative goes up to w.
   */
  lemma PunctFlushes<X, G, A, O>(f: Functor<X, G, A, O>, ins: seq<Input<X>>, w: int)
    requires TimelyRun(f, ins + [Punct(w)]) && 0 < LastPunct(ins) < w
    ensures var r := Run(f, ins + [Punct(w)]);
            || !r.s.finished
            || AllOut(f, Tuples(ins), r.log, if f.unsigned32 then w else LastPunct(ins) + 1)
  {
    hide Run, TimelyRun, Tuples, LastPunct, Inv, Underway, AddPunct, PartialFlush, AllOut, NoneBelow, Step, NextOut;
    TimelyPrefix(f, ins, [Punct(w)]);
    RunSnoc(f, ins, Punct(w));
    RunProgress(f, ins);
    RunProgress(f, ins + [Punct(w)]);
    var s, log, xs := Run(f, ins).s, Run(f, ins).log, Tuples(ins);
    StepIs(f, s, Punct(w));
    PushedKeeps(f, s, log, xs);
    var p := Pushed(s);
    PunctStarts(f, p.s, w, log + p.log, xs);
    var r := Run(f, ins + [Punct(w)]);
    var more := AddPunct(f, p.s, w).log;
    assert (log + p.log) + more == r.log;
    if r.s.finished {
      if Ignored(f, p.s) {
        assert more == [] && (log + p.log) + [] == log + p.log;
        if !AllOut(f, xs, log + p.log, LastPunct(ins) + 1) {
          NotPassed(f, p.s, log + p.log, xs, LastPunct(ins) + 1);
        }
      } else {
        InvShape(f, r.s, r.log, xs);
        OutWhenNoneBelow(f, r.s, r.log, xs, w);
        OutMore(f, xs, r.log, [], w, LastPunct(ins) + 1);
        assert r.log + [] == r.log;
      }
    }
  }

  /**
   * From the inputs alone: after two punctuations, every group of a window up to the first one is in the output once as
   * many inputs have followed as there were tuples and windows before.
   */
  lemma EndedGroupsLeave<X, G, A, O>(f: Functor<X, G, A, O>, ins: seq<Input<X>>, w: int, more: seq<Input<X>>)
    requires TimelyRun(f, ins + [Punct(w)] + more) && 0 < LastPunct(ins) < w && |more| >= |Tuples(ins)| + w
    ensures AllOut(f, Tuples(ins + [Punct(w)] + more), Run(f, ins + [Punct(w)] + more).log,
                   if f.unsigned32 then w else LastPunct(ins) + 1)
  {
    hide Run, TimelyRun, Tuples, LastPunct, AllOut, Inv, Underway, Left;
    var pre := ins + [Punct(w)];
    TimelyPrefix(f, pre, more);
    RunSnoc(f, ins, Punct(w));
    PunctFlushes(f, ins, w);
    RunProgress(f, pre);
    var r := Run(f, pre);
    if r.s.finished {
      OutStays(f, pre, more, if f.unsigned32 then w else LastPunct(ins) + 1);
    } else {
      LeftBound(f, r.s, r.log, Tuples(pre));
      FlushEnds(f, pre, more);
      var all := Run(f, pre + more).log;
      OutMore(f, Tuples(pre + more), all, [], w, if f.unsigned32 then w else LastPunct(ins) + 1);
      assert all + [] == all;
    }
  }

  /** While a flush is under way every input outputs the next group, unless the window being flushed is empty. */
  lemma NextGroupLeaves<X, G, A, O>(f: Functor<X, G, A, O>, ins: seq<Input<X>>, i: Input<X>)
    requires TimelyRun(f, ins + [i]) && !Run(f, ins).s.finished
    ensures var r := Run(f, ins);
            var n := Run(f, ins + [i]).log;
            && r.s.tables != []
            && (T.Items(r.s.tables[0]) != [] ==> Rest(r.s) != [] && r.log + [Rest(r.s)[0]] <= n)
            && (i.Data? ==> n == r.log + if T.Items(r.s.tables[0]) != [] then [Rest(r.s)[0]] else [])
  {
    hide Run, TimelyRun, Tuples, LastPunct, PartialFlush, Step, AddPunct, AddTuple, Shape, Closed, Rest, T.Items;
    TimelyPrefix(f, ins, [i]);
    RunSnoc(f, ins, i);
    RunProgress(f, ins);
    var r := Run(f, ins);
    StepProgress(f, r.s, i, r.log, Tuples(ins));
    StepIs(f, r.s, i);
    PushedKeeps(f, r.s, r.log, Tuples(ins));
    PartialFlushOut(f, r.s);
  }

  /** A later punctuation during a flush outputs the rest of what the earlier one ended and all that it ends itself. */
  lemma NextPunctDrains<X, G, A, O>(f: Functor<X, G, A, O>, ins: seq<Input<X>>, w: int)
    requires TimelyRun(f, ins + [Punct(w)]) && LastPunct(ins) < w && !Pushed(Run(f, ins).s).s.finished
    ensures AllOut(f, Tuples(ins), Run(f, ins + [Punct(w)]).log, w) && Run(f, ins + [Punct(w)]).s.finished
  {
    hide Run, TimelyRun, Tuples, LastPunct, AllOut, Inv, Underway, AddPunct, NoneBelow, Step, Pushed, NextOut;
    TimelyPrefix(f, ins, [Punct(w)]);
    RunSnoc(f, ins, Punct(w));
    RunProgress(f, ins);
    RunProgress(f, ins + [Punct(w)]);
    var s, log, xs := Run(f, ins).s, Run(f, ins).log, Tuples(ins);
    StepIs(f, s, Punct(w));
    PushedKeeps(f, s, log, xs);
    var p := Pushed(s).s;
    InvShape(f, p, log + Pushed(s).log, xs);
    PunctDrains(f, p, w);
    var r := Run(f, ins + [Punct(w)]);
    InvShape(f, r.s, r.log, xs);
    OutWhenNoneBelow(f, r.s, r.log, xs, w);
  }

  // ------------------------------------------------ a punctuation that is ignored

  /** Tuples are their windows, each a group of its own; the temporal variable is not a 32-bit unsigned integer. */
  function Windows(): Functor<int, int, int, int> {
    Functor(x => Some(x), g => g, x => x, (x, a) => a, (g, a) => Some(g), g => if g < 0 then 0 else g, false)
  }

  lemma {:induction false} NothingLeaves(more: seq<Input<int>>, ins: seq<Input<int>>)
    requires Run(Windows(), ins).s.finished && forall i :: 0 <= i < |more| ==> more[i].Data?
    ensures Run(Windows(), ins + more).s.finished && Run(Windows(), ins + more).log == Run(Windows(), ins).log
  {
    hide Run, AddTuple, Windows;
    if more == [] {
      assert ins + more == ins;
    } else {
      var n := |more| - 1;
      NothingLeaves(more[..n], ins);
      assert ins + more == (ins + more[..n]) + [more[n]];
      var r := Run(Windows(), ins + more[..n]);
      RunSnoc(Windows(), ins + more[..n], more[n]);
      if Windows().group(more[n].x).Some? {
        TupleIdle(Windows(), r.s, more[n].x, Windows().group(more[n].x).value);
      }
      assert r.log + [] == r.log;
    }
  }

  /**
   * The bound by the earlier punctuation is needed: a punctuation ends window 5, but as the one before it lies behind
   * all stored windows no flush starts, and the group stays however many tuples follow.
   */
  lemma PunctuationIgnored(more: seq<Input<int>>)
    requires forall i :: 0 <= i < |more| ==> more[i].Data?
    ensures Run(Windows(), [Data(5), Punct(3), Punct(10)] + more).log == []
  {
    var ins := [Data(5), Punct(3), Punct(10)];
    IgnoredStart();
    hide Run, Windows;
    NothingLeaves(more, ins);
  }

  lemma IgnoredStart()
    ensures var r := Run(Windows(), [Data(5), Punct(3), Punct(10)]); r.s.finished && r.log == []
  {
    hide Step, Run;
    var f := Windows();
    assert Run(f, []) == Result(Init(), []) by { StartRun(f); }
    RunSnoc(f, [], Data(5));
    RunSnoc(f, [Data(5)], Punct(3));
    RunSnoc(f, [Data(5), Punct(3)], Punct(10));
    assert [] + [Data(5)] == [Data(5)] && [Data(5)] + [Punct(3)] == [Data(5), Punct(3)];
    assert [Data(5), Punct(3)] + [Punct(10)] == [Data(5), Punct(3), Punct(10)];
    FirstTuple();
    EarlyPunct(Run(f, [Data(5)]).s);
    LatePunct(Run(f, [Data(5), Punct(3)]).s);
  }

  lemma StartRun(f: Functor<int, int, int, int>)
    ensures Run(f, []) == Result(Init(), [])
  {
  }

  lemma FirstTuple()
    ensures var r := Step(Windows(), Init(), Data(5));
            r.log == [] && r.s.finished && r.s.minWid == 5 && r.s.lastGb == 0 && !r.s.needs
  {
    hide Absorb, Empties, T.Empty;
  }

  lemma EarlyPunct(s: State<int, int>)
    requires s.finished && s.minWid == 5 && s.lastGb == 0 && !s.needs
    ensures Step(Windows(), s, Punct(3)) == Result(s.(lastFlushedGb := 0, lastGb := 3), [])
  {
    hide FlushOld;
  }

  lemma LatePunct(s: State<int, int>)
    requires s.finished && s.minWid == 5 && s.lastGb == 3
    ensures var r := Step(Windows(), s, Punct(10)); r.s.finished && r.log == []
  {
    hide FlushOld;
  }
}
