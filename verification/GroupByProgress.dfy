/** The double-buffered group-by step by step: an epoch change drains the older groups, then each tuple outputs one. */
module GroupByProgress {
  import opened Options
  import opened Grouping
  import opened GroupBy
  import opened GroupByProofs
  import T = Table

  ghost function Min(a: nat, b: nat): nat { if a < b then a else b }

  lemma PushesOne<X, G, A, O>(q: Query<X, G, A, O>, s: State<G, A>)
    requires Good(q, s)
    ensures Flushed(s).log == OldRest(s)[..Min(1, |OldRest(s)|)]
  {
    hide T.Items, T.Valid, ClearOld, InEpoch;
  }

  /** A tuple of the same epoch outputs exactly one of the old groups that are left. */
  lemma SameEpochEmits<X, G, A, O>(q: Query<X, G, A, O>, s: State<G, A>, x: X)
    requires Good(q, s) && q.epoch(x) == s.lastGb
    ensures Accept(q, s, x).log == OldRest(s)[..Min(1, |OldRest(s)|)]
  {
    hide Good, PartialFlush, OldRest, T.Items, T.Has, T.Get, T.Put, T.Insert, FlushOld, WithCurrent, Current;
    PushesOne(q, s);
    FlushedMoves(q, s);
    assert Flushed(s).log + [] == Flushed(s).log;
  }

  lemma RunSnoc<X, G, A, O>(q: Query<X, G, A, O>, xs: seq<X>, x: X)
    ensures Run(q, xs + [x]) == var r1 := Run(q, xs); var r2 := Accept(q, r1.s, x); Result(r2.s, r1.log + r2.log)
  {
    assert (xs + [x])[..|xs|] == xs;
  }

  /** One more tuple of the epoch, in a run. */
  lemma RunSame<X, G, A, O>(q: Query<X, G, A, O>, xs: seq<X>, x: X)
    requires KeyedByEpoch(q, xs) && KeyOk(q, x) && Run(q, xs).s.lastGb == q.epoch(x)
    ensures var r, r' := Run(q, xs), Run(q, xs + [x]);
            var out := OldRest(r.s)[..Min(1, |OldRest(r.s)|)];
            r'.log == r.log + out && out + OldRest(r'.s) == OldRest(r.s)
  {
    hide Good, OldRest, Accept, Run, KeyedByEpoch, IsGrouping, Min, KeyOk, Stretches, Concat, T.Items;
    var parts := RunByStretch(q, xs);
    RunSnoc(q, xs, x);
    SameEpochEmits(q, Run(q, xs).s, x);
    AcceptSame(q, Run(q, xs).s, x, Stretches(q, xs)[|parts| - 1]);
  }

  lemma LastEpoch<X, G, A, O>(q: Query<X, G, A, O>, xs: seq<X>)
    requires KeyedByEpoch(q, xs) && xs != []
    ensures Run(q, xs).s.lastGb == q.epoch(xs[|xs| - 1])
  {
    hide Good, OldRest, Accept, Run, KeyedByEpoch, IsGrouping, Stretches, Concat, T.Items;
    var parts := RunByStretch(q, xs);
  }

  /** As long as the epoch does not change, n tuples output the next n old groups, until none is left. */
  lemma {:induction false} EpochDrains<X, G, A, O>(q: Query<X, G, A, O>, xs: seq<X>, ys: seq<X>)
    requires xs != [] && KeyedByEpoch(q, xs + ys)
    requires forall i :: 0 <= i < |ys| ==> q.epoch(ys[i]) == q.epoch(xs[|xs| - 1])
    ensures var r, r' := Run(q, xs), Run(q, xs + ys);
            var n := Min(|ys|, |OldRest(r.s)|);
            r'.log == r.log + OldRest(r.s)[..n] && OldRest(r'.s) == OldRest(r.s)[n..]
  {
    hide OldRest, Run, KeyedByEpoch, KeyOk;
    var r := Run(q, xs);
    if ys == [] {
      assert xs + ys == xs;
      assert r.log + OldRest(r.s)[..0] == r.log;
    } else {
      var n := |ys| - 1;
      var pre := xs + ys[..n];
      assert xs + ys == pre + [ys[n]];
      KeyedPrefix(q, pre, ys[n]);
      LastEpoch(q, pre);
      assert pre[|pre| - 1] == if n == 0 then xs[|xs| - 1] else ys[n - 1];
      EpochDrains(q, xs, ys[..n]);
      RunSame(q, pre, ys[n]);
      var r1, r2 := Run(q, pre), Run(q, pre + [ys[n]]);
      DrainNext(r.log, OldRest(r.s), n, r1.log, OldRest(r1.s), r2.log, OldRest(r2.s));
    }
  }

  lemma DrainNext<Y>(log: seq<Y>, rest: seq<Y>, n: nat, log1: seq<Y>, rest1: seq<Y>, log2: seq<Y>, rest2: seq<Y>)
    requires var m := Min(n, |rest|); log1 == log + rest[..m] && rest1 == rest[m..]
    requires var out := rest1[..Min(1, |rest1|)]; log2 == log1 + out && out + rest2 == rest1
    ensures var m := Min(n + 1, |rest|); log2 == log + rest[..m] && rest2 == rest[m..]
  {
    if n < |rest| {
      assert rest1[..1] == [rest[n]] && rest[..n] + [rest[n]] == rest[..n + 1];
      assert rest2 == ([rest[n]] + rest2)[1..] == rest[n..][1..];
    } else {
      assert rest1[..0] == [] && [] + rest2 == rest2 && log1 + [] == log1;
    }
  }

  lemma KeyedPrefix<X, G, A, O>(q: Query<X, G, A, O>, xs: seq<X>, x: X)
    requires KeyedByEpoch(q, xs + [x])
    ensures KeyedByEpoch(q, xs) && KeyOk(q, x)
  {
    assert (xs + [x])[|xs|] == x;
    forall i | 0 <= i < |xs| ensures (xs + [x])[i] == xs[i] {
    }
  }

  /**
   * An epoch change outputs everything that is left of the older epochs; the groups of the epoch that ended then leave
   * one with each further tuple of the new epoch.
   */
  lemma EndedEpochLeaves<X, G, A, O>(q: Query<X, G, A, O>, xs: seq<X>, x: X, ys: seq<X>)
    requires KeyedByEpoch(q, xs + [x] + ys) && q.epoch(x) != Run(q, xs).s.lastGb
    requires forall i :: 0 <= i < |ys| ==> q.epoch(ys[i]) == q.epoch(x)
    ensures var r := Run(q, xs);
            var ended := T.Items(Current(r.s));
            Run(q, xs + [x] + ys).log == r.log + OldRest(r.s) + ended[..Min(|ys|, |ended|)]
  {
    hide Good, OldRest, Accept, Run, KeyedByEpoch, IsGrouping, T.Items, Current, Stretches, Concat;
    KeyedFront(q, xs + [x], ys);
    KeyedPrefix(q, xs, x);
    var parts := RunByStretch(q, xs);
    AcceptNew(q, Run(q, xs).s, x);
    RunSnoc(q, xs, x);
    EpochDrains(q, xs + [x], ys);
  }

  lemma KeyedFront<X, G, A, O>(q: Query<X, G, A, O>, xs: seq<X>, ys: seq<X>)
    requires KeyedByEpoch(q, xs + ys)
    ensures KeyedByEpoch(q, xs)
  {
    forall i | 0 <= i < |xs| ensures (xs + ys)[i] == xs[i] {
    }
  }
}
