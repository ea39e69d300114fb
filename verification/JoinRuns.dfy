/**
 * Whole runs of the join operator: from an aligned start it is the relational join, from a misaligned one it is
 * stuck.
 */
module JoinRuns {
  import opened Options
  import opened MultisetSum
  import opened Join
  import opened JoinProofs
  import T = Table

  // ------------------------------------------------ advancing the window

  lemma JoinedPerm<X, K, O>(q: Query<X, K, O>, c: nat, x: X, ys: seq<X>, zs: seq<X>)
    requires multiset(ys) == multiset(zs)
    ensures Joined(q, c, x, ys) == Joined(q, c, x, zs)
  {
    if i :| 0 <= i < |ys| && Joins(q, c, x, ys[i]) {
      assert ys[i] in multiset(zs);
    }
    if i :| 0 <= i < |zs| && Joins(q, c, x, zs[i]) {
      assert zs[i] in multiset(ys);
    }
  }

  lemma PadsOk<X, K, O>(q: Query<X, K, O>, c: nat, curr: int, done: seq<X>, odone: seq<X>,
      mine: T.Table<K, Stored<X>>, other: T.Table<K, Stored<X>>)
    requires c < 2 && TblOk(q, c, curr, done, mine, other) && TblOk(q, Other(c), curr, odone, other, mine)
    ensures multiset(PadItems(q, c, T.Items(mine)))
         == Sum(Pad(q, c, AtTs(q, Other(c), curr, odone)), AtTs(q, c, curr, done))
  {
    hide T.Valid, T.Items, Tups, Joined, AtTs, Sum, MakePadded, Keyed, PadItems;
    var items, ys, zs := T.Items(mine), Tups(T.Items(other)), AtTs(q, Other(c), curr, odone);
    PadItemsSum(q, c, items, ys);
    forall i | 0 <= i < |Tups(items)|
      ensures Pad(q, c, ys)(Tups(items)[i]) == Pad(q, c, zs)(Tups(items)[i])
    {
      JoinedPerm(q, c, Tups(items)[i], ys, zs);
    }
    SumExt(Pad(q, c, ys), Pad(q, c, zs), Tups(items));
    SumPerm(Pad(q, c, zs), Tups(items), AtTs(q, c, curr, done));
  }

  /** The queue front, or the channel maximum when the queue is empty. */
  ghost function HeadOf<X, K, O>(q: Query<X, K, O>, c: nat, queue: seq<X>, max: Option<int>): int
    requires max.Some?
  {
    if queue == [] then max.value else Ts(q, c, queue[0])
  }

  lemma ChanAdvance<X, K, O>(q: Query<X, K, O>, c: nat, acc: seq<X>, done: seq<X>, queue: seq<X>, max: Option<int>,
      curr: int, curr': int)
    requires ChanOk(q, c, acc, done, queue, max, curr, true)
    requires curr < curr' <= HeadOf(q, c, queue, max)
    ensures ChanOk(q, c, acc, done, queue, max, curr', true)
    ensures AtTs(q, c, curr', done) == []
    ensures AtTs(q, c, curr, acc) == AtTs(q, c, curr, done)
    ensures forall t :: curr < t < curr' ==> AtTs(q, c, t, acc) == []
  {
    forall i | 0 <= i < |queue| ensures curr' <= Ts(q, c, queue[i]) {
      assert queue[i] == acc[|done| + i] && queue[0] == acc[|done|];
    }
    assert queue != [] ==> acc[|acc| - 1] == queue[|queue| - 1];
    AtTsNone(q, c, curr', done);
    AtTsNone(q, c, curr, queue);
    AtTsConcat(q, c, curr, done, queue);
    forall t | curr < t < curr' ensures AtTs(q, c, t, acc) == [] {
      AtTsNone(q, c, t, acc);
    }
  }

  lemma TblEmpty<X, K, O>(q: Query<X, K, O>, c: nat, curr: int, done: seq<X>, n: nat, m: nat)
    requires n > 0 && m > 0 && AtTs(q, c, curr, done) == []
    ensures TblOk(q, c, curr, done, T.Empty(n), T.Empty(m))
  {
  }

  lemma RelationalNil<X, K, O>(q: Query<X, K, O>)
    ensures Relational(q, [], []) == multiset{}
  {
  }

  lemma LogAdvance<X, K, O>(q: Query<X, K, O>, acc: seq<seq<X>>, done: seq<seq<X>>, curr: int, curr': int,
      log: seq<Emit<O>>, pads: seq<O>)
    requires |acc| == 2 && |done| == 2 && LogOk(q, acc, done, curr, true, log) && curr < curr'
    requires forall c: nat :: c < 2 ==>
               AtTs(q, c, curr', done[c]) == [] && AtTs(q, c, curr, acc[c]) == AtTs(q, c, curr, done[c])
    requires forall c: nat, t :: c < 2 && curr < t < curr' ==> AtTs(q, c, t, acc[c]) == []
    requires multiset(pads) == Pads(q, 0, AtTs(q, 0, curr, done[0]), AtTs(q, 1, curr, done[1]))
                             + Pads(q, 1, AtTs(q, 1, curr, done[1]), AtTs(q, 0, curr, done[0]))
    ensures LogOk(q, acc, done, curr', true, log + Tag(curr, pads))
  {
    hide At, AtTs, Tag, Pads, Pairs;
    var log' := log + Tag(curr, pads);
    forall t ensures At(log', t) == At(log, t) + if t == curr then multiset(pads) else multiset{} {
      LogTag(log, curr, pads, t);
    }
    RelationalNil(q);
    forall t | t < curr'
      ensures At(log', t) == Relational(q, AtTs(q, 0, t, acc[0]), AtTs(q, 1, t, acc[1]))
    {
    }
    PairsNil(q);
  }

  lemma PairsNil<X, K, O>(q: Query<X, K, O>)
    ensures Pairs(q, [], []) == multiset{}
  {
  }

  lemma AdvanceInv<X, K, O>(q: Query<X, K, O>, acc: seq<seq<X>>, done: seq<seq<X>>, s: State<X, K>, log: seq<Emit<O>>)
    requires Inv(q, acc, done, s, log)
    ensures var r := Advance(q, s); Inv(q, acc, done, r.s, log + r.log)
    ensures s.valid ==> s.curr <= Advance(q, s).s.curr
  {
    hide ChanOk, TblOk, LogOk, AtTs, Tag, T.Items, PadItems, Pad;
    var r := Advance(q, s);
    if CompareQtsToHashTs(q, s, 0) > 0 && CompareQtsToHashTs(q, s, 1) > 0 {
      ChanAdvance(q, 0, acc[0], done[0], s.queue[0], s.maxTs[0], s.curr, r.s.curr);
      ChanAdvance(q, 1, acc[1], done[1], s.queue[1], s.maxTs[1], s.curr, r.s.curr);
      TblEmpty(q, 0, r.s.curr, done[0], |r.s.tbl[0].chains|, |r.s.tbl[1].chains|);
      TblEmpty(q, 1, r.s.curr, done[1], |r.s.tbl[1].chains|, |r.s.tbl[0].chains|);
      PadsOk(q, 0, s.curr, done[0], done[1], s.tbl[0], s.tbl[1]);
      PadsOk(q, 1, s.curr, done[1], done[0], s.tbl[1], s.tbl[0]);
      LogAdvance(q, acc, done, s.curr, r.s.curr, log, PadSide(q, s, 0) + PadSide(q, s, 1));
    } else {
      assert log + [] == log;
    }
  }

  // ------------------------------------------------ admitting a tuple

  /**
   * The start is aligned when, as the second channel becomes known with timestamp t, the queue of the early
   * channel is empty, or its front is that channel's maximum, or the front is not overtaken by t.
   */
  predicate Aligned<X, K, O>(q: Query<X, K, O>, s: State<X, K>, c: nat, t: int)
    requires c < 2 && Sized(s)
  {
    var e := Other(c);
    s.maxTs[c].None? && s.maxTs[e].Some? && s.queue[e] != [] ==>
      var front := Ts(q, e, s.queue[e][0]);
      front == s.maxTs[e].value || t < front || (e == 1 && t == front)
  }

  lemma ChanStart<X, K, O>(q: Query<X, K, O>, c: nat, acc: seq<X>, queue: seq<X>, max: Option<int>, curr: int,
      curr': int)
    requires ChanOk(q, c, acc, [], queue, max, curr, false)
    requires max.Some? && curr' <= HeadOf(q, c, queue, max) && curr' <= max.value
    ensures ChanOk(q, c, acc, [], queue, max, curr', true)
    ensures forall t :: t < curr' ==> AtTs(q, c, t, acc) == []
  {
    assert acc == queue by { assert [] + queue == queue; }
    assert forall i :: 0 <= i < |queue| ==> curr' <= Ts(q, c, queue[i]) by {
      if queue != [] { assert Ts(q, c, queue[0]) >= curr'; }
    }
    hide *;
    NoneBefore(q, c, acc, curr');
  }

  lemma NoneBefore<X, K, O>(q: Query<X, K, O>, c: nat, xs: seq<X>, curr: int)
    requires forall i :: 0 <= i < |xs| ==> curr <= Ts(q, c, xs[i])
    ensures forall t :: t < curr ==> AtTs(q, c, t, xs) == []
  {
    hide *;
    forall t | t < curr ensures AtTs(q, c, t, xs) == [] {
      AtTsNone(q, c, t, xs);
    }
  }

  lemma ChanMax<X, K, O>(q: Query<X, K, O>, c: nat, acc: seq<X>, done: seq<X>, queue: seq<X>, max: Option<int>,
      curr: int, valid: bool, t: int)
    requires ChanOk(q, c, acc, done, queue, max, curr, valid)
    requires max.Some? ==> max.value <= t
    requires valid ==> max.Some?
    ensures ChanOk(q, c, acc, done, queue, Some(t), curr, valid)
  {
  }

  lemma ChanSome<X, K, O>(q: Query<X, K, O>, c: nat, acc: seq<X>, done: seq<X>, queue: seq<X>, max: Option<int>,
      curr: int, valid: bool)
    requires ChanOk(q, c, acc, done, queue, max, curr, valid) && acc != []
    ensures max.Some?
  {
    assert q.ts(c, acc[0]).Some?;
  }

  lemma ChanNone<X, K, O>(q: Query<X, K, O>, c: nat, acc: seq<X>, done: seq<X>, queue: seq<X>, curr: int, valid: bool)
    requires ChanOk(q, c, acc, done, queue, None, curr, valid)
    ensures acc == [] && done == [] && queue == []
  {
    if acc != [] {
      ChanSome(q, c, acc, done, queue, None, curr, valid);
    }
    assert |acc| == |done| + |queue|;
  }

  lemma LogStart<X, K, O>(q: Query<X, K, O>, acc: seq<seq<X>>, curr: int)
    requires |acc| == 2
    requires forall c: nat, t :: c < 2 && t < curr ==> AtTs(q, c, t, acc[c]) == []
    ensures LogOk(q, acc, [[], []], curr, true, [])
  {
    hide Relational, Pairs;
    RelationalNil(q);
    PairsNil(q);
  }

  lemma StartInv<X, K, O>(q: Query<X, K, O>, acc: seq<seq<X>>, done: seq<seq<X>>, s: State<X, K>, log: seq<Emit<O>>,
      c: nat, t: int)
    requires c < 2 && Inv(q, acc, done, s, log) && Aligned(q, s, c, t)
    ensures Inv(q, acc, done, Start(q, s, c, t), log)
  {
    hide ChanOk, TblOk, LogOk, HeadOf, AtTs;
    var s', e := Start(q, s, c, t), Other(c);
    if s.maxTs[c].None? {
      ChanNone(q, c, acc[c], done[c], s.queue[c], s.curr, s.valid);
      ChanMax(q, c, acc[c], done[c], s.queue[c], s.maxTs[c], s.curr, s.valid, t);
      if s.maxTs[e].Some? {
        assert done[e] == [] by { DoneNil(q, e, acc, done, s, log); }
        assert log == [] by { LogNil(q, acc, done, s, log); }
        FrontBelowMax(q, e, acc[e], s.queue[e], s.maxTs[e], s.curr);
        AlignedCurr(q, s, c, t);
        hide Start, Aligned;
        ChanStart(q, e, acc[e], s.queue[e], s.maxTs[e], s.curr, s'.curr);
        ChanStart(q, c, acc[c], s.queue[c], Some(t), s.curr, s'.curr);
        LogStart(q, acc, s'.curr);
        assert done == [[], []];
        TblStart(q, 0, s.curr, s'.curr, s.tbl[0], s.tbl[1]);
        TblStart(q, 1, s.curr, s'.curr, s.tbl[1], s.tbl[0]);
      }
    }
  }

  /** An aligned start puts curr_ts at the lower of the two heads. */
  lemma AlignedCurr<X, K, O>(q: Query<X, K, O>, s: State<X, K>, c: nat, t: int)
    requires c < 2 && Sized(s) && Aligned(q, s, c, t) && s.maxTs[c].None? && s.maxTs[Other(c)].Some?
    requires s.queue[c] == [] && HeadOf(q, Other(c), s.queue[Other(c)], s.maxTs[Other(c)]) <= s.maxTs[Other(c)].value
    ensures var s', e := Start(q, s, c, t), Other(c);
            && s' == s.(maxTs := s.maxTs[c := Some(t)], curr := s'.curr, valid := true)
            && s'.curr <= HeadOf(q, e, s.queue[e], s.maxTs[e]) && s'.curr <= s.maxTs[e].value
            && s'.curr <= HeadOf(q, c, s.queue[c], Some(t)) && s'.curr <= t
  {
  }

  lemma TblStart<X, K, O>(q: Query<X, K, O>, c: nat, curr: int, curr': int, mine: T.Table<K, Stored<X>>,
      other: T.Table<K, Stored<X>>)
    requires TblOk(q, c, curr, [], mine, other)
    ensures TblOk(q, c, curr', [], mine, other)
  {
  }

  lemma DoneNil<X, K, O>(q: Query<X, K, O>, c: nat, acc: seq<seq<X>>, done: seq<seq<X>>, s: State<X, K>,
      log: seq<Emit<O>>)
    requires c < 2 && Inv(q, acc, done, s, log) && !s.valid
    ensures done[c] == []
  {
  }

  lemma LogNil<X, K, O>(q: Query<X, K, O>, acc: seq<seq<X>>, done: seq<seq<X>>, s: State<X, K>, log: seq<Emit<O>>)
    requires Inv(q, acc, done, s, log) && !s.valid
    ensures log == []
  {
  }

  lemma FrontBelowMax<X, K, O>(q: Query<X, K, O>, c: nat, acc: seq<X>, queue: seq<X>, max: Option<int>, curr: int)
    requires ChanOk(q, c, acc, [], queue, max, curr, false) && max.Some?
    ensures HeadOf(q, c, queue, max) <= max.value
  {
    assert acc == queue by { assert [] + queue == queue; }
  }

  lemma ChanAppend<X, K, O>(q: Query<X, K, O>, c: nat, acc: seq<X>, done: seq<X>, queue: seq<X>, curr: int, valid: bool,
      x: X, t: int)
    requires ChanOk(q, c, acc, done, queue, Some(t), curr, valid) && q.ts(c, x) == Some(t)
    ensures ChanOk(q, c, acc + [x], done, queue + [x], Some(t), curr, valid)
  {
    assert (done + queue) + [x] == done + (queue + [x]);
  }

  lemma LogAppend<X, K, O>(q: Query<X, K, O>, acc: seq<seq<X>>, done: seq<seq<X>>, curr: int, valid: bool,
      log: seq<Emit<O>>, c: nat, x: X)
    requires c < 2 && |acc| == 2 && |done| == 2 && LogOk(q, acc, done, curr, valid, log)
    requires valid ==> curr <= Ts(q, c, x)
    ensures LogOk(q, acc[c := acc[c] + [x]], done, curr, valid, log)
  {
    hide Relational, AtTs, At, Pairs;
    var acc' := acc[c := acc[c] + [x]];
    if valid {
      forall t, d: nat | t < curr && d < 2 ensures AtTs(q, d, t, acc'[d]) == AtTs(q, d, t, acc[d]) {
        AtTsSnoc(q, c, t, acc[c], x);
        assert AtTs(q, c, t, acc[c]) + [] == AtTs(q, c, t, acc[c]);
      }
    }
  }

  /** The accepted tuples after one more input. */
  function Extend<X, K, O>(q: Query<X, K, O>, acc: seq<seq<X>>, s: State<X, K>, x: Input<X>): (r: seq<seq<X>>)
    requires |acc| == 2 && Sized(s)
    ensures |r| == 2
  {
    if x.channel < 2 && Accepts(q, s.maxTs[x.channel], x.channel, x.tup)
    then acc[x.channel := acc[x.channel] + [x.tup]] else acc
  }

  lemma AdmitInv<X, K, O>(q: Query<X, K, O>, acc: seq<seq<X>>, done: seq<seq<X>>, s: State<X, K>, log: seq<Emit<O>>,
      x: Input<X>)
    requires Inv(q, acc, done, s, log) && AlignedInput(q, s, x)
    ensures Admit(q, s, x).Some? ==> Inv(q, Extend(q, acc, s, x), done, Admit(q, s, x).value, log)
    ensures Admit(q, s, x).None? ==> Extend(q, acc, s, x) == acc
  {
    hide ChanOk, TblOk, LogOk, Aligned, CompareQts;
    if Admit(q, s, x).Some? {
      var c, t := x.channel, Ts(q, x.channel, x.tup);
      var s1 := Start(q, s, c, t);
      StartInv(q, acc, done, s, log, c, t);
      ChanMax(q, c, acc[c], done[c], s1.queue[c], s1.maxTs[c], s1.curr, s1.valid, t);
      if !q.isTemp(c, x.tup) && q.prefilter(c, x.tup) {
        ChanAppend(q, c, acc[c], done[c], s1.queue[c], s1.curr, s1.valid, x.tup, t);
        CurrBelowMax(q, c, acc[c], done[c], s1.queue[c], Some(t), s1.curr, s1.valid);
        LogAppend(q, acc, done, s1.curr, s1.valid, log, c, x.tup);
      }
    }
  }

  lemma CurrBelowMax<X, K, O>(q: Query<X, K, O>, c: nat, acc: seq<X>, done: seq<X>, queue: seq<X>, max: Option<int>,
      curr: int, valid: bool)
    requires ChanOk(q, c, acc, done, queue, max, curr, valid)
    ensures valid ==> max.Some? && curr <= max.value
  {
  }

  predicate AlignedInput<X, K, O>(q: Query<X, K, O>, s: State<X, K>, x: Input<X>)
    requires Sized(s)
  {
    x.channel < 2 && q.ts(x.channel, x.tup).Some? ==> Aligned(q, s, x.channel, Ts(q, x.channel, x.tup))
  }

  lemma StepInv<X, K, O>(q: Query<X, K, O>, acc: seq<seq<X>>, done: seq<seq<X>>, s: State<X, K>, log: seq<Emit<O>>,
      x: Input<X>)
      returns (done': seq<seq<X>>)
    requires |acc| == 2 && Sized(s) && Inv(q, acc, done, s, log) && AlignedInput(q, s, x)
    ensures var r := Step(q, s, x); Inv(q, Extend(q, acc, s, x), done', r.s, log + r.log)
  {
    hide Inv, AlignedInput, Sized, Admit, Advance, Drain, Extend;
    AdmitInv(q, acc, done, s, log, x);
    if Admit(q, s, x).None? {
      done' := done;
      assert log + [] == log;
    } else {
      var a, acc' := Admit(q, s, x).value, Extend(q, acc, s, x);
      AdvanceInv(q, acc', done, a, log);
      var r1 := Advance(q, a);
      var d0 := DrainInv(q, acc', done, r1.s, log + r1.log, 0);
      var r2 := Drain(q, r1.s, 0);
      done' := DrainInv(q, acc', d0, r2.s, log + r1.log + r2.log, 1);
      var r3 := Drain(q, r2.s, 1);
      assert log + r1.log + r2.log + r3.log == log + (r1.log + (r2.log + r3.log));
    }
  }
}
