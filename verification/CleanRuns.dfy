/** The sampling operator over whole runs: what survives the final cleaning of a window is output exactly once. */
module CleanRuns {
  import opened Options
  import opened Clean
  import opened CleanSteps
  import opened CleanOperators
  import T = Table
  import L = TableLaws

  /** A closed window: its tables when the flush came, and after the final cleaning. */
  datatype Window<G, K, A, S> = Window(
    gt0: T.Table<G, A>,
    st0: T.Table<K, S>,
    at0: T.Table<K, Attr<G>>,
    gt: T.Table<G, A>,
    st: T.Table<K, S>,
    at: T.Table<K, Attr<G>>)

  ghost predicate Closing<X, G(!new), K(!new), A, S, O>(q: Query<X, G, K, A, S, O>, w: Window<G, K, A, S>) {
    WindowClosed(q, w.gt0, w.st0, w.at0, w.gt, w.st, w.at)
  }

  /** What the closed windows owe: for each, one output per stored group, in iteration order. */
  ghost function Due<X, G, K, A, S, O>(q: Query<X, G, K, A, S, O>, ws: seq<Window<G, K, A, S>>): seq<O> {
    if ws == [] then [] else
    var w := ws[|ws| - 1];
    Due(q, ws[..|ws| - 1]) + AllSampled(q, w.st, w.at, T.Items(w.gt))
  }

  lemma DueSnoc<X, G, K, A, S, O>(q: Query<X, G, K, A, S, O>, ws: seq<Window<G, K, A, S>>, w: Window<G, K, A, S>)
    ensures Due(q, ws + [w]) == Due(q, ws) + AllSampled(q, w.st, w.at, T.Items(w.gt))
  {
    hide AllSampled, T.Items;
    assert (ws + [w])[..|ws|] == ws;
  }

  /** Number of inputs whose flush indicator is set. */
  function Flushes<X>(ins: seq<(X, bool)>): nat {
    if ins == [] then 0 else Flushes(ins[..|ins| - 1]) + (if ins[|ins| - 1].1 then 1 else 0)
  }

  // ------------------------------------------------ snapshots and steps

  /** The tables in use and those of the closed window. */
  datatype Snapshot<G, K, A, S> = Snapshot(
    gt: T.Table<G, A>,
    st: T.Table<K, S>,
    at: T.Table<K, Attr<G>>,
    oldGt: T.Table<G, A>,
    oldSt: T.Table<K, S>,
    oldAt: T.Table<K, Attr<G>>)

  ghost function Now<X, G(!new), K(!new), A, S, O>(op: CleanOperator<X, G, K, A, S, O>): Snapshot<G, K, A, S>
    requires op.Shape()
    reads op
  {
    var c, o := op.currTable, 1 - op.currTable;
    Snapshot(op.groups[c], op.supers[c], op.attrs[c], op.groups[o], op.supers[o], op.attrs[o])
  }

  ghost predicate Sound<X, G(!new), K(!new), A, S, O>(q: Query<X, G, K, A, S, O>, s: Snapshot<G, K, A, S>) {
    SideOk(q, s.gt, s.st, s.at) && ClosedOk(q, s.oldGt, s.oldSt, s.oldAt)
  }

  /** What input x does to the tables (gt, st, at) of its window: nothing if it has no group, else its whole outcome. */
  ghost predicate Taken<X, G(!new), K(!new), A, S, O>(q: Query<X, G, K, A, S, O>, x: X, cd: int,
      gt: T.Table<G, A>, st: T.Table<K, S>, at: T.Table<K, Attr<G>>, b: Snapshot<G, K, A, S>)
  {
    match q.group(x)
    case None => b.gt == gt && b.st == st && b.at == at
    case Some(g) =>
      && Outcome(q, x, g, cd, gt, st, at, b.oldSt, b.oldAt, b.gt, b.st, b.at)
      && OthersKept(q, q.super(g), gt, st, at, b.gt, b.st, b.at)
  }

  /** The input after a flush finds empty tables, and the count left over by the window that the flush closed. */
  ghost predicate TakenAfresh<X, G(!new), K(!new), A(!new), S(!new), O>(q: Query<X, G, K, A, S, O>, x: X, cd: int,
      b: Snapshot<G, K, A, S>)
  {
    exists gt, st, at :: Blank(gt, st, at) && SideOk(q, gt, st, at) && Taken(q, x, cd, gt, st, at, b)
  }

  /** One input: with a flush the tables in use become the closed window's, finalized and cleaned. */
  ghost predicate Step<X, G(!new), K(!new), A(!new), S(!new), O>(q: Query<X, G, K, A, S, O>, x: X, needs: bool,
      a: Snapshot<G, K, A, S>, b: Snapshot<G, K, A, S>)
  {
    if needs then
      WindowClosed(q, a.gt, a.st, a.at, b.oldGt, b.oldSt, b.oldAt) && TakenAfresh(q, x, LastCount(q, a.st, a.at), b)
    else
      b.oldSt == a.oldSt && b.oldAt == a.oldAt && Taken(q, x, 0, a.gt, a.st, a.at, b)
  }

  /** A run: the snapshots before the first input and after every input. */
  ghost predicate Trace<X, G(!new), K(!new), A(!new), S(!new), O>(q: Query<X, G, K, A, S, O>, ins: seq<(X, bool)>,
      tr: seq<Snapshot<G, K, A, S>>)
  {
    && |tr| == |ins| + 1
    && (forall i :: 0 <= i < |tr| ==> Sound(q, tr[i]))
    && (forall i :: 0 <= i < |ins| ==> Step(q, ins[i].0, ins[i].1, tr[i], tr[i + 1]))
  }

  /** The window that an input closes, if its flush indicator is set. */
  ghost function Closed<G, K, A, S>(needs: bool, a: Snapshot<G, K, A, S>,
      b: Snapshot<G, K, A, S>): seq<Window<G, K, A, S>> {
    if needs then [Window(a.gt, a.st, a.at, b.oldGt, b.oldSt, b.oldAt)] else []
  }

  /** The windows closed in a run, in order. */
  ghost function Windows<X, G, K, A, S>(ins: seq<(X, bool)>, tr: seq<Snapshot<G, K, A, S>>): seq<Window<G, K, A, S>>
    requires |tr| == |ins| + 1
  {
    if ins == [] then [] else
    var n := |ins| - 1;
    Windows(ins[..n], tr[..n + 1]) + Closed(ins[n].1, tr[n], tr[n + 1])
  }

  /** One input, seen from what is due. */
  method AcceptOne<X, G(==, !new), K(==, !new), A(!new), S(!new), O>(
      op: CleanOperator<X, G, K, A, S, O>, x: X, needs: bool)
      returns (out: seq<O>)
    requires op.Valid()
    modifies op
    ensures op.Valid() && Sound(op.q, Now(op)) && Step(op.q, x, needs, old(Now(op)), Now(op))
    ensures out + op.Left() == old(op.Left()) + Due(op.q, Closed(needs, old(Now(op)), Now(op)))
  {
    hide SideOk, ClosedOk, T.Items, AllSampled, OthersKept, WindowClosed, Slice, Outcome, LastCount, Blank, Due;
    ghost var a := Now(op);
    out := op.AcceptTuple(x, needs);
    ghost var b := Now(op);
    DueNil<X, G, K, A, S, O>(op.q);
    if needs {
      ghost var w := Window(a.gt, a.st, a.at, b.oldGt, b.oldSt, b.oldAt);
      DueOne(op.q, w);
      assert TakenAfresh(op.q, x, LastCount(op.q, a.st, a.at), b) by {
        if op.q.group(x).None? {
          assert Taken(op.q, x, LastCount(op.q, a.st, a.at), b.gt, b.st, b.at, b);
        }
      }
    } else {
      assert old(op.Left()) + [] == old(op.Left());
    }
  }

  ghost predicate AllClosing<X, G(!new), K(!new), A, S, O>(q: Query<X, G, K, A, S, O>, ws: seq<Window<G, K, A, S>>) {
    forall i :: 0 <= i < |ws| ==> Closing(q, ws[i])
  }

  lemma MoreClosing<X, G(!new), K(!new), A, S, O>(q: Query<X, G, K, A, S, O>, a: seq<Window<G, K, A, S>>,
      b: seq<Window<G, K, A, S>>)
    requires AllClosing(q, a) && AllClosing(q, b)
    ensures AllClosing(q, a + b)
  {
    hide Closing;
  }

  lemma DueOne<X, G, K, A, S, O>(q: Query<X, G, K, A, S, O>, w: Window<G, K, A, S>)
    ensures Due(q, [w]) == AllSampled(q, w.st, w.at, T.Items(w.gt))
  {
    hide AllSampled, T.Items, Due;
    DueNil(q);
    DueSnoc(q, [], w);
    assert [] + [w] == [w];
  }

  lemma DueMore<X, G, K, A, S, O>(q: Query<X, G, K, A, S, O>, a: seq<Window<G, K, A, S>>, b: seq<Window<G, K, A, S>>)
    requires |b| <= 1
    ensures Due(q, a + b) == Due(q, a) + Due(q, b)
  {
    hide AllSampled, T.Items, Due;
    DueNil(q);
    if b == [] {
      assert a + b == a;
    } else {
      assert b == [b[0]];
      DueSnoc(q, a, b[0]);
      DueOne(q, b[0]);
    }
  }

  /**
   * Any run of accept_tuple: its snapshots form a trace from the tables on entry to those on exit, and what was due
   * before and what the windows closed along the trace owe is what has been output followed by what is still due.
   */
  method AcceptAll<X, G(==, !new), K(==, !new), A(!new), S(!new), O>(
      op: CleanOperator<X, G, K, A, S, O>, ins: seq<(X, bool)>)
      returns (out: seq<O>, ghost tr: seq<Snapshot<G, K, A, S>>)
    requires op.Valid()
    modifies op
    ensures op.Valid() && Trace(op.q, ins, tr) && tr[0] == old(Now(op)) && tr[|ins|] == Now(op)
    ensures out + op.Left() == old(op.Left()) + Due(op.q, Windows(ins, tr))
  {
    hide *;
    op.ValidShape();
    ghost var before := op.Left();
    out, tr := [], [Now(op)];
    RunStart(op, ins);
    var i := 0;
    while i < |ins|
      invariant i <= |ins| && op.Valid() && op.Shape() && |tr| == i + 1
      invariant Trace(op.q, ins[..i], tr) && tr[0] == old(Now(op)) && tr[i] == Now(op)
      invariant out + op.Left() == before + Due(op.q, Windows(ins[..i], tr))
    {
      ghost var left := op.Left();
      var more := AcceptOne(op, ins[i].0, ins[i].1);
      op.ValidShape();
      ghost var w := Closed(ins[i].1, tr[i], Now(op));
      TraceNext(op.q, ins, i, tr, Now(op));
      DueMore(op.q, Windows(ins[..i], tr), w);
      Accounted(out, left, before, Due(op.q, Windows(ins[..i], tr)), more, op.Left(), Due(op.q, w));
      out, tr := out + more, tr + [Now(op)];
      i := i + 1;
    }
    assert ins[..i] == ins;
  }

  lemma RunStart<X, G(!new), K(!new), A(!new), S(!new), O>(op: CleanOperator<X, G, K, A, S, O>, ins: seq<(X, bool)>)
    requires op.Valid()
    ensures Trace(op.q, ins[..0], [Now(op)])
    ensures [] + op.Left() == op.Left() + Due(op.q, Windows(ins[..0], [Now(op)]))
  {
    hide SideOk, ClosedOk, T.Items, Step, AllSampled;
  }

  lemma TraceNext<X, G(!new), K(!new), A(!new), S(!new), O>(q: Query<X, G, K, A, S, O>, ins: seq<(X, bool)>, i: nat,
      tr: seq<Snapshot<G, K, A, S>>, b: Snapshot<G, K, A, S>)
    requires i < |ins| && |tr| == i + 1 && Trace(q, ins[..i], tr)
    requires Sound(q, b) && Step(q, ins[i].0, ins[i].1, tr[i], b)
    ensures Trace(q, ins[..i + 1], tr + [b])
    ensures Windows(ins[..i + 1], tr + [b]) == Windows(ins[..i], tr) + Closed(ins[i].1, tr[i], b)
    ensures |Closed(ins[i].1, tr[i], b)| <= 1
  {
    hide Sound, Step;
    var ins', tr' := ins[..i + 1], tr + [b];
    assert ins'[..i] == ins[..i] && tr'[..i + 1] == tr;
    forall j | 0 <= j < |ins'| ensures Step(q, ins'[j].0, ins'[j].1, tr'[j], tr'[j + 1]) {
      if j < i { assert Step(q, ins[..i][j].0, ins[..i][j].1, tr[j], tr[j + 1]); }
    }
  }

  /** Every flush of a run closes one window, finalized and cleaned. */
  lemma {:induction false} WindowsClose<X, G(!new), K(!new), A(!new), S(!new), O>(
      q: Query<X, G, K, A, S, O>, ins: seq<(X, bool)>, tr: seq<Snapshot<G, K, A, S>>)
    requires Trace(q, ins, tr)
    ensures |Windows(ins, tr)| == Flushes(ins) && AllClosing(q, Windows(ins, tr))
  {
    hide Sound, WindowClosed, TakenAfresh, Taken;
    if ins != [] {
      var n := |ins| - 1;
      TracePrefix(q, ins, tr, n);
      WindowsClose(q, ins[..n], tr[..n + 1]);
      assert Step(q, ins[n].0, ins[n].1, tr[n], tr[n + 1]);
      MoreClosing(q, Windows(ins[..n], tr[..n + 1]), Closed(ins[n].1, tr[n], tr[n + 1]));
    }
  }

  lemma TracePrefix<X, G(!new), K(!new), A(!new), S(!new), O>(q: Query<X, G, K, A, S, O>, ins: seq<(X, bool)>,
      tr: seq<Snapshot<G, K, A, S>>, n: nat)
    requires Trace(q, ins, tr) && n <= |ins|
    ensures Trace(q, ins[..n], tr[..n + 1])
  {
    hide Sound, Step;
  }

  lemma DueNil<X, G, K, A, S, O>(q: Query<X, G, K, A, S, O>)
    ensures Due(q, []) == []
  {
  }

  lemma Accounted<Y>(out: seq<Y>, left: seq<Y>, before: seq<Y>, due: seq<Y>, more: seq<Y>, next: seq<Y>, owed: seq<Y>)
    requires out + left == before + due && more + next == left + owed
    ensures (out + more) + next == before + (due + owed)
  {
    assert (out + more) + next == out + (more + next);
    assert out + (left + owed) == (out + left) + owed;
    assert (before + due) + owed == before + (due + owed);
  }

  // ------------------------------------------------ what a closed window owes

  /** The groups of supergroup k that survive the final cleaning, and its final state. */
  ghost function FinalOf<X, G(!new), K(!new), A, S, O>(q: Query<X, G, K, A, S, O>, w: Window<G, K, A, S>,
      k: K): (seq<G>, S)
    requires Finalized(q, w.gt0, w.st0, w.at0, k, w.st, w.at)
  {
    var a := T.Get(w.at0, q.superHash, k);
    Survivors(q, w.gt0, a.list, q.finalize(T.Get(w.st0, q.superHash, k), a.count), true, |a.list|)
  }

  /** A group is stored in the closed window exactly when it survives the final cleaning of its supergroup. */
  lemma StoredIffSurvives<X, G(!new), K(!new), A, S, O>(q: Query<X, G, K, A, S, O>, w: Window<G, K, A, S>, g: G)
    requires Closing(q, w)
    ensures |w.gt.chains| > 0 && |w.st0.chains| > 0
    ensures T.Has(w.st0, q.superHash, q.super(g)) ==> Finalized(q, w.gt0, w.st0, w.at0, q.super(g), w.st, w.at)
    ensures T.Has(w.gt, q.hash, g) <==> T.Has(w.st0, q.superHash, q.super(g)) && g in FinalOf(q, w, q.super(g)).0
  {
    hide T.Has, T.Get, T.Items, T.NoDup, TablesOk, Survivors, Stored;
    var k := q.super(g);
    if T.Has(w.st0, q.superHash, k) {
      assert Finalized(q, w.gt0, w.st0, w.at0, k, w.st, w.at);
      assert AttrOk(q, w.gt, T.Get(w.at, q.superHash, k), k);
    }
  }

  /**
   * Every survivor occurs exactly once among the groups that the window outputs, with its aggregate; its output is made
   * from the final state of its supergroup and the number of the supergroup's survivors, if it can be created at all.
   */
  lemma SurvivorOutput<X, G(!new), K(!new), A, S, O>(q: Query<X, G, K, A, S, O>, w: Window<G, K, A, S>, i: nat)
    requires Closing(q, w) && i < |T.Items(w.gt)|
    ensures T.UniqueKeys(T.Items(w.gt))
    ensures var x := T.Items(w.gt)[i];
            var k := q.super(x.key);
            && |w.gt0.chains| > 0 && T.Has(w.gt0, q.hash, x.key) && x.val == T.Get(w.gt0, q.hash, x.key)
            && Finalized(q, w.gt0, w.st0, w.at0, k, w.st, w.at)
            && var f := FinalOf(q, w, k);
               && x.key in f.0
               && var o := q.output(x.key, x.val, f.1, |f.0|);
                  Sampled(q, w.st, w.at, x) == if o.Some? then [o.value] else []
  {
    hide T.Has, T.Get, T.Items, T.NoDup, Survivors, Stored, T.Valid;
    var x := T.Items(w.gt)[i];
    var k := q.super(x.key);
    ClosingTables(q, w);
    L.StoredIs(w.gt, q.hash, i);
    StoredIffSurvives(q, w, x.key);
    assert AttrOk(q, w.gt, T.Get(w.at, q.superHash, k), k);
  }

  lemma ClosingTables<X, G(!new), K(!new), A, S, O>(q: Query<X, G, K, A, S, O>, w: Window<G, K, A, S>)
    requires Closing(q, w)
    ensures T.Valid(w.gt, q.hash) && T.UniqueKeys(T.Items(w.gt))
  {
    hide T.Has, T.Get, T.Items, T.Valid, T.UniqueKeys, KeysOk, CountsOk, Finalized;
  }
}
