/** How fast the join operator moves: one queued timestamp per admitted input. */
module JoinProgress {
  import opened Options
  import opened Join
  import opened JoinProofs
  import opened JoinTheorems
  import T = Table

  /** The distinct timestamps up to t that are queued on a channel. */
  ghost function PendingOn<X, K, O>(q: Query<X, K, O>, c: nat, xs: seq<X>, t: int): set<int> {
    set i | 0 <= i < |xs| && Ts(q, c, xs[i]) <= t :: Ts(q, c, xs[i])
  }

  /** The distinct timestamps up to t that are queued on either channel. */
  ghost function Pending<X, K, O>(q: Query<X, K, O>, s: State<X, K>, t: int): set<int>
    requires Sized(s)
  {
    PendingOn(q, 0, s.queue[0], t) + PendingOn(q, 1, s.queue[1], t)
  }

  /** An input is admitted when its timestamp can be loaded and is not behind the greatest one of its channel. */
  predicate InOrder<X, K, O>(q: Query<X, K, O>, pre: seq<Input<X>>, x: Input<X>) {
    && x.channel < 2 && q.ts(x.channel, x.tup).Some?
    && (MaxTs(q, pre, x.channel).Some? ==> MaxTs(q, pre, x.channel).value <= Ts(q, x.channel, x.tup))
  }

  /** How many of the inputs `more`, which follow ins, are admitted. */
  function AdmittedCount<X, K, O>(q: Query<X, K, O>, ins: seq<Input<X>>, more: seq<Input<X>>): nat {
    if more == [] then 0 else
    var n := |more| - 1;
    AdmittedCount(q, ins, more[..n]) + (if InOrder(q, ins + more[..n], more[n]) then 1 else 0)
  }

  lemma AdmittedIs<X, K, O>(q: Query<X, K, O>, ins: seq<Input<X>>, x: Input<X>)
    ensures Admit(q, Run(q, ins).s, x).Some? <==> InOrder(q, ins, x)
  {
    RunMaxTs(q, ins);
    hide Run, MaxTs, CompareQts;
  }

  // ------------------------------------------------ after a step no queued tuple belongs to the current window

  ghost predicate FrontsPast<X, K, O>(q: Query<X, K, O>, s: State<X, K>, c: nat)
    requires c < 2 && Sized(s)
  {
    s.valid && s.queue[c] != [] ==> Ts(q, c, s.queue[c][0]) != s.curr
  }

  lemma {:induction false} DrainFronts<X, K, O>(q: Query<X, K, O>, s: State<X, K>, c: nat)
    requires c < 2 && Sized(s)
    ensures var r := Drain(q, s, c).s; FrontsPast(q, r, c) && r.queue[Other(c)] == s.queue[Other(c)]
    decreases |s.queue[c]|
  {
    if s.valid && s.queue[c] != [] && Ts(q, c, s.queue[c][0]) == s.curr {
      var r := DrainOne(q, s, c).s;
      DrainOneQueues(q, s, c);
      hide DrainOne;
      DrainFronts(q, r, c);
    }
  }

  lemma DrainOneQueues<X, K, O>(q: Query<X, K, O>, s: State<X, K>, c: nat)
    requires c < 2 && Sized(s) && s.queue[c] != []
    ensures var r := DrainOne(q, s, c).s;
            && r.queue[c] == s.queue[c][1..] && r.queue[Other(c)] == s.queue[Other(c)]
            && r.curr == s.curr && r.valid == s.valid && r.maxTs == s.maxTs
  {
    hide Probe, Touch, T.Insert, T.Bucket;
  }

  lemma ProcessFronts<X, K, O>(q: Query<X, K, O>, s: State<X, K>)
    requires Sized(s)
    ensures var r := ProcessJoin(q, s).s; FrontsPast(q, r, 0) && FrontsPast(q, r, 1)
  {
    hide Drain;
    var r0 := Drain(q, s, 0).s;
    DrainFronts(q, s, 0);
    DrainFronts(q, r0, 1);
    DrainKeeps(q, s, 0);
    DrainKeeps(q, r0, 1);
  }

  lemma {:induction false} RunFronts<X, K, O>(q: Query<X, K, O>, ins: seq<Input<X>>)
    ensures var s := Run(q, ins).s; FrontsPast(q, s, 0) && FrontsPast(q, s, 1)
  {
    if ins != [] {
      var s := Run(q, ins[..|ins| - 1]).s;
      RunFronts(q, ins[..|ins| - 1]);
      hide Admit, Advance, ProcessJoin, FrontsPast;
      if Admit(q, s, ins[|ins| - 1]).Some? {
        ProcessFronts(q, Advance(q, Admit(q, s, ins[|ins| - 1]).value).s);
      }
    }
  }

  // ------------------------------------------------ one admitted input

  ghost predicate AllAfter<X, K, O>(q: Query<X, K, O>, c: nat, xs: seq<X>, t: int) {
    forall i :: 0 <= i < |xs| ==> Ts(q, c, xs[i]) > t
  }

  /** Both channels are known and in order, and everything queued is later than the current timestamp. */
  ghost predicate Ready<X, K, O>(q: Query<X, K, O>, s: State<X, K>) {
    && Sized(s) && s.valid && s.maxTs[0].Some? && s.maxTs[1].Some?
    && Sorted(q, 0, s.queue[0]) && Sorted(q, 1, s.queue[1])
    && AllAfter(q, 0, s.queue[0], s.curr) && AllAfter(q, 1, s.queue[1], s.curr)
  }

  lemma AheadIsAfter<X, K, O>(q: Query<X, K, O>, c: nat, xs: seq<X>, curr: int)
    requires Sorted(q, c, xs) && NoneBehind(q, c, xs, curr) && (xs != [] ==> Ts(q, c, xs[0]) != curr)
    ensures AllAfter(q, c, xs, curr)
  {
    forall i | 0 <= i < |xs| ensures Ts(q, c, xs[i]) > curr {
      assert Ts(q, c, xs[0]) <= Ts(q, c, xs[i]);
    }
  }

  lemma RunReady<X, K, O>(q: Query<X, K, O>, ins: seq<Input<X>>)
    requires AlignedRun(q, ins) && Run(q, ins).s.valid
    ensures Ready(q, Run(q, ins).s)
  {
    hide Run, AlignedRun, Sorted, NoneBehind, AllAfter, T.Items;
    RunKeepsOrder(q, ins, 0);
    RunKeepsOrder(q, ins, 1);
    RunFronts(q, ins);
    var s := Run(q, ins).s;
    AheadIsAfter(q, 0, s.queue[0], s.curr);
    AheadIsAfter(q, 1, s.queue[1], s.curr);
  }

  lemma PendingFront<X, K, O>(q: Query<X, K, O>, c: nat, xs: seq<X>, t: int)
    requires xs != [] && Ts(q, c, xs[0]) <= t
    ensures PendingOn(q, c, xs, t) == PendingOn(q, c, xs[1..], t) + {Ts(q, c, xs[0])}
  {
    var a, b := PendingOn(q, c, xs, t), PendingOn(q, c, xs[1..], t);
    forall y | y in a ensures y in b + {Ts(q, c, xs[0])} {
      var i :| 0 <= i < |xs| && Ts(q, c, xs[i]) <= t && Ts(q, c, xs[i]) == y;
      if i > 0 { assert xs[1..][i - 1] == xs[i]; }
    }
    forall y | y in b ensures y in a {
      var i :| 0 <= i < |xs[1..]| && Ts(q, c, xs[1..][i]) <= t && Ts(q, c, xs[1..][i]) == y;
      assert xs[1..][i] == xs[i + 1];
    }
  }

  lemma PendingNone<X, K, O>(q: Query<X, K, O>, c: nat, xs: seq<X>, t: int)
    requires AllAfter(q, c, xs, t)
    ensures PendingOn(q, c, xs, t) == {}
  {
  }

  lemma PendingLate<X, K, O>(q: Query<X, K, O>, c: nat, xs: seq<X>, x: X, t: int)
    requires Ts(q, c, x) > t
    ensures PendingOn(q, c, xs + [x], t) == PendingOn(q, c, xs, t)
  {
    forall y | y in PendingOn(q, c, xs, t) ensures y in PendingOn(q, c, xs + [x], t) {
      var i :| 0 <= i < |xs| && Ts(q, c, xs[i]) <= t && Ts(q, c, xs[i]) == y;
      assert (xs + [x])[i] == xs[i];
    }
  }

  /** Consuming a queue at the current timestamp removes that timestamp from what is pending. */
  lemma {:induction false} DrainPending<X, K, O>(q: Query<X, K, O>, s: State<X, K>, c: nat, t: int)
    requires c < 2 && Sized(s) && s.valid && s.curr <= t && Sorted(q, c, s.queue[c])
    requires NoneBehind(q, c, s.queue[c], s.curr)
    ensures var r := Drain(q, s, c).s; PendingOn(q, c, r.queue[c], t) == PendingOn(q, c, s.queue[c], t) - {s.curr}
    decreases |s.queue[c]|
  {
    if s.queue[c] != [] && Ts(q, c, s.queue[c][0]) == s.curr {
      hide DrainOne, PendingOn, Ts;
      var r := DrainOne(q, s, c).s;
      DrainOneQueues(q, s, c);
      DrainPending(q, r, c, t);
      PendingFront(q, c, s.queue[c], t);
    } else {
      hide Drain;
      DrainStops(q, s, c);
      AheadIsAfter(q, c, s.queue[c], s.curr);
    }
  }

  lemma DrainStops<X, K, O>(q: Query<X, K, O>, s: State<X, K>, c: nat)
    requires c < 2 && Sized(s) && (s.queue[c] == [] || Ts(q, c, s.queue[c][0]) != s.curr)
    ensures Drain(q, s, c).s == s
  {
  }

  lemma ProcessPending<X, K, O>(q: Query<X, K, O>, s: State<X, K>, t: int)
    requires Sized(s) && s.valid && s.curr <= t
    requires Sorted(q, 0, s.queue[0]) && NoneBehind(q, 0, s.queue[0], s.curr)
    requires Sorted(q, 1, s.queue[1]) && NoneBehind(q, 1, s.queue[1], s.curr)
    ensures Pending(q, ProcessJoin(q, s).s, t) == Pending(q, s, t) - {s.curr}
  {
    hide Drain, PendingOn, Sorted, NoneBehind;
    var r0 := Drain(q, s, 0).s;
    DrainPending(q, s, 0, t);
    DrainKeeps(q, s, 0);
    DrainFronts(q, s, 0);
    DrainPending(q, r0, 1, t);
    DrainFronts(q, r0, 1);
  }

  /** The new current timestamp is the earliest head; up to t it is queued, and beyond t nothing up to t is. */
  lemma AdvanceTo<X, K, O>(q: Query<X, K, O>, s: State<X, K>, t: int)
    requires Ready(q, s) && s.curr <= t && s.maxTs[0].value > t && s.maxTs[1].value > t
    ensures var r := Advance(q, s).s;
            && r.queue == s.queue && r.valid && r.curr > s.curr && r.maxTs == s.maxTs
            && NoneBehind(q, 0, r.queue[0], r.curr) && NoneBehind(q, 1, r.queue[1], r.curr)
            && (r.curr <= t ==> r.curr in Pending(q, s, t)) && (r.curr > t ==> Pending(q, s, t) == {})
  {
    hide T.Cleared, PadSide, Tag, PendingOn, Sorted;
    var h0, h1 := Head(q, s, 0), Head(q, s, 1);
    var r := Advance(q, s).s;
    assert r.curr <= h0 && r.curr <= h1 && (r.curr == h0 || r.curr == h1);
    HeadFirst(q, s, 0, r.curr);
    HeadFirst(q, s, 1, r.curr);
    if r.curr > t {
      PendingNone(q, 0, s.queue[0], t);
      PendingNone(q, 1, s.queue[1], t);
    } else {
      HeadPending(q, s, 0, t);
      HeadPending(q, s, 1, t);
    }
  }

  lemma HeadFirst<X, K, O>(q: Query<X, K, O>, s: State<X, K>, c: nat, t: int)
    requires c < 2 && Sized(s) && s.maxTs[c].Some? && Sorted(q, c, s.queue[c]) && t <= Head(q, s, c)
    ensures NoneBehind(q, c, s.queue[c], t)
  {
    forall i | 0 <= i < |s.queue[c]| ensures t <= Ts(q, c, s.queue[c][i]) {
      assert Ts(q, c, s.queue[c][0]) <= Ts(q, c, s.queue[c][i]);
    }
  }

  lemma HeadPending<X, K, O>(q: Query<X, K, O>, s: State<X, K>, c: nat, t: int)
    requires c < 2 && Sized(s) && s.maxTs[c].Some? && s.maxTs[c].value > t
    ensures Head(q, s, c) <= t ==> Head(q, s, c) in PendingOn(q, c, s.queue[c], t)
  {
  }

  /** Admission adds nothing up to t once the channel is past t. */
  lemma AdmitReady<X, K, O>(q: Query<X, K, O>, s: State<X, K>, x: Input<X>, t: int)
    requires Ready(q, s) && QueueBelow(q, 0, s) && QueueBelow(q, 1, s)
    requires s.curr <= t && s.maxTs[0].value > t && s.maxTs[1].value > t && Admit(q, s, x).Some?
    ensures var a := Admit(q, s, x).value;
            && Ready(q, a) && a.curr == s.curr && a.maxTs[0].value > t && a.maxTs[1].value > t
            && Pending(q, a, t) == Pending(q, s, t)
  {
    hide PendingOn, CompareQts;
    var c := x.channel;
    var a := Admit(q, s, x).value;
    if !q.isTemp(c, x.tup) && q.prefilter(c, x.tup) {
      PendingLate(q, c, s.queue[c], x.tup, t);
      AppendSorted(q, c, s.queue[c], x.tup, s.curr);
    }
  }

  /** No queued tuple is later than the channel's maximum. */
  ghost predicate QueueBelow<X, K, O>(q: Query<X, K, O>, c: nat, s: State<X, K>) {
    c < 2 && Sized(s) && s.maxTs[c].Some? && forall i :: 0 <= i < |s.queue[c]| ==>
            Ts(q, c, s.queue[c][i]) <= s.maxTs[c].value
  }

  lemma AppendSorted<X, K, O>(q: Query<X, K, O>, c: nat, xs: seq<X>, x: X, t: int)
    requires Sorted(q, c, xs) && AllAfter(q, c, xs, t) && Ts(q, c, x) > t && forall i :: 0 <= i < |xs| ==>
            Ts(q, c, xs[i]) <= Ts(q, c, x)
    ensures Sorted(q, c, xs + [x]) && AllAfter(q, c, xs + [x], t)
  {
  }

  lemma RunBelow<X, K, O>(q: Query<X, K, O>, ins: seq<Input<X>>, c: nat)
    requires AlignedRun(q, ins) && Run(q, ins).s.valid && c < 2
    ensures QueueBelow(q, c, Run(q, ins).s)
  {
    hide *;
    var done := RunInv(q, ins);
    InvBelow(q, AcceptedBoth(q, ins), done, Run(q, ins).s, Run(q, ins).log, c);
  }

  lemma InvBelow<X, K, O>(q: Query<X, K, O>, acc: seq<seq<X>>, done: seq<seq<X>>, s: State<X, K>, log: seq<Emit<O>>,
      c: nat)
    requires c < 2 && Inv(q, acc, done, s, log) && s.valid
    ensures QueueBelow(q, c, s)
  {
    hide ChanOk, TblOk, LogOk, Ts;
    BelowMax(q, c, acc[c], done[c], s.queue[c], s.maxTs[c], s.curr);
  }

  lemma BelowMax<X, K, O>(q: Query<X, K, O>, c: nat, acc: seq<X>, done: seq<X>, queue: seq<X>, max: Option<int>,
      curr: int)
    requires ChanOk(q, c, acc, done, queue, max, curr, true)
    ensures max.Some? && forall i :: 0 <= i < |queue| ==> Ts(q, c, queue[i]) <= max.value
  {
    forall i | 0 <= i < |queue| ensures Ts(q, c, queue[i]) <= max.value {
      assert acc[|done| + i] == queue[i];
    }
  }

  /** An admitted input moves curr_ts to the next pending timestamp and settles it, or past t when none is pending. */
  lemma StepProgress<X, K, O>(q: Query<X, K, O>, s: State<X, K>, x: Input<X>, t: int)
    requires Ready(q, s) && QueueBelow(q, 0, s) && QueueBelow(q, 1, s)
    requires s.curr <= t && s.maxTs[0].value > t && s.maxTs[1].value > t && Admit(q, s, x).Some?
    ensures var r := Step(q, s, x).s;
            && (Pending(q, s, t) == {} ==> r.curr > t)
            && (Pending(q, s, t) != {} ==> r.curr <= t && |Pending(q, r, t)| == |Pending(q, s, t)| - 1)
  {
    hide Admit, Advance, Drain, PendingOn, Sorted, NoneBehind, AllAfter, QueueBelow;
    var a := Admit(q, s, x).value;
    AdmitReady(q, s, x, t);
    AdvanceTo(q, a, t);
    var b := Advance(q, a).s;
    if b.curr <= t {
      ProcessPending(q, b, t);
    }
    DrainKeeps(q, b, 0);
    DrainKeeps(q, Drain(q, b, 0).s, 1);
  }

  // ------------------------------------------------ whole runs

  lemma ValidStaysAligned<X, K, O>(q: Query<X, K, O>, ins: seq<Input<X>>, x: Input<X>)
    requires AlignedRun(q, ins) && Run(q, ins).s.valid
    ensures AlignedRun(q, ins + [x]) && Run(q, ins + [x]).s.valid
  {
    hide Step, Sized;
    assert (ins + [x])[..|ins|] == ins;
    RunValid(q, ins);
    StepCurr(q, Run(q, ins).s, x);
  }

  lemma StepAt<X, K, O>(q: Query<X, K, O>, ins: seq<Input<X>>, x: Input<X>)
    ensures Run(q, ins + [x]).s == Step(q, Run(q, ins).s, x).s
    ensures Admit(q, Run(q, ins).s, x).None? ==> Run(q, ins + [x]).s == Run(q, ins).s
  {
    assert (ins + [x])[..|ins|] == ins;
    hide Admit, Advance, ProcessJoin;
  }

  /** Where a run stands after more inputs, k of them admitted. */
  lemma {:induction false} Progress<X, K, O>(q: Query<X, K, O>, ins: seq<Input<X>>, more: seq<Input<X>>, t: int)
    requires AlignedRun(q, ins) && Run(q, ins).s.valid && Run(q, ins).s.curr <= t
    requires MaxTs(q, ins, 0).Some? && MaxTs(q, ins, 0).value > t && MaxTs(q, ins, 1).Some?
    requires MaxTs(q, ins, 1).value > t
    ensures var s, k := Run(q, ins + more).s, AdmittedCount(q, ins, more);
            && AlignedRun(q, ins + more) && s.valid
            && s.maxTs[0].Some? && s.maxTs[0].value > t && s.maxTs[1].Some? && s.maxTs[1].value > t
            && (s.curr > t <==> k > |Pending(q, Run(q, ins).s, t)|)
            && (s.curr <= t ==> |Pending(q, s, t)| == |Pending(q, Run(q, ins).s, t)| - k)
  {
    hide Run, AlignedRun, Pending, Admit, InOrder, MaxTs, Step;
    if more == [] {
      assert ins + more == ins;
      RunMaxTs(q, ins);
    } else {
      var n := |more| - 1;
      var pre, x := ins + more[..n], more[n];
      assert ins + more == pre + [x];
      Progress(q, ins, more[..n], t);
      ValidStaysAligned(q, pre, x);
      StepAt(q, pre, x);
      AdmittedIs(q, pre, x);
      MaxGrows(q, Run(q, pre).s, x, t);
      var s := Run(q, pre).s;
      if InOrder(q, pre, x) {
        if s.curr <= t {
          RunReady(q, pre);
          RunBelow(q, pre, 0);
          RunBelow(q, pre, 1);
          StepProgress(q, s, x, t);
        } else {
          KnownCurr(q, s, x);
        }
      }
    }
  }

  lemma KnownCurr<X, K, O>(q: Query<X, K, O>, s: State<X, K>, x: Input<X>)
    requires Sized(s) && s.valid && s.maxTs[0].Some? && s.maxTs[1].Some?
    ensures Step(q, s, x).s.curr >= s.curr
  {
    hide Step;
    StepCurr(q, s, x);
  }

  lemma MaxGrows<X, K, O>(q: Query<X, K, O>, s: State<X, K>, x: Input<X>, t: int)
    requires Sized(s) && s.maxTs[0].Some? && s.maxTs[0].value > t && s.maxTs[1].Some? && s.maxTs[1].value > t
    ensures var r := Step(q, s, x).s;
            r.maxTs[0].Some? && r.maxTs[0].value > t && r.maxTs[1].Some? && r.maxTs[1].value > t
  {
    hide Step;
    StepMaxTs(q, s, x);
  }

  /**
   * In an aligned run in which both channels have moved past t, curr_ts passes t if and only if the admitted inputs
   * that follow are more than the distinct timestamps up to t still queued: each admitted input settles exactly one of
   * them.
   */
  lemma PassesExactlyWhen<X, K, O>(q: Query<X, K, O>, ins: seq<Input<X>>, more: seq<Input<X>>, t: int)
    requires AlignedRun(q, ins) && Run(q, ins).s.valid && Run(q, ins).s.curr <= t
    requires MaxTs(q, ins, 0).Some? && MaxTs(q, ins, 0).value > t && MaxTs(q, ins, 1).Some?
    requires MaxTs(q, ins, 1).value > t
    ensures Run(q, ins + more).s.curr > t <==> AdmittedCount(q, ins, more) > |Pending(q, Run(q, ins).s, t)|
  {
    hide *;
    Progress(q, ins, more, t);
  }

  /** Once a channel is past t, its tuples of timestamp t are final. */
  lemma {:induction false} Settled<X, K, O>(q: Query<X, K, O>, ins: seq<Input<X>>, more: seq<Input<X>>, t: int, c: nat)
    requires MaxTs(q, ins, c).Some? && MaxTs(q, ins, c).value > t
    ensures MaxTs(q, ins + more, c).Some? && MaxTs(q, ins + more, c).value > t
    ensures AtTs(q, c, t, Accepted(q, ins + more, c)) == AtTs(q, c, t, Accepted(q, ins, c))
  {
    hide AtTs, Accepted, MaxTs;
    if more == [] {
      assert ins + more == ins;
    } else {
      var n := |more| - 1;
      var pre, x := ins + more[..n], more[n];
      assert ins + more == pre + [x];
      Settled(q, ins, more[..n], t, c);
      SettledOnce(q, pre, x, t, c);
    }
  }

  lemma SettledOnce<X, K, O>(q: Query<X, K, O>, pre: seq<Input<X>>, x: Input<X>, t: int, c: nat)
    requires MaxTs(q, pre, c).Some? && MaxTs(q, pre, c).value > t
    ensures MaxTs(q, pre + [x], c).Some? && MaxTs(q, pre + [x], c).value > t
    ensures AtTs(q, c, t, Accepted(q, pre + [x], c)) == AtTs(q, c, t, Accepted(q, pre, c))
  {
    hide AtTs, Accepted, MaxTs;
    MaxSnoc(q, pre, x, c);
    AcceptedSnoc(q, pre, x, c);
    AtTsSnoc(q, c, t, Accepted(q, pre, c), x.tup);
    assert Accepted(q, pre, c) + [] == Accepted(q, pre, c);
    assert AtTs(q, c, t, Accepted(q, pre, c)) + [] == AtTs(q, c, t, Accepted(q, pre, c));
  }

  lemma MaxSnoc<X, K, O>(q: Query<X, K, O>, pre: seq<Input<X>>, x: Input<X>, c: nat)
    ensures MaxTs(q, pre + [x], c) == NextMax(q, MaxTs(q, pre, c), x, c)
  {
    assert (pre + [x])[..|pre|] == pre;
  }

  /** So that many inputs suffice for the operator to have emitted the whole join of the tuples of t received so far. */
  lemma JoinCompleteAfter<X, K, O>(q: Query<X, K, O>, ins: seq<Input<X>>, more: seq<Input<X>>, t: int)
    requires AlignedRun(q, ins) && Run(q, ins).s.valid && Run(q, ins).s.curr <= t
    requires MaxTs(q, ins, 0).Some? && MaxTs(q, ins, 0).value > t && MaxTs(q, ins, 1).Some?
    requires MaxTs(q, ins, 1).value > t
    requires AdmittedCount(q, ins, more) > |Pending(q, Run(q, ins).s, t)|
    ensures At(Run(q, ins + more).log, t)
         == Relational(q, AtTs(q, 0, t, Accepted(q, ins, 0)), AtTs(q, 1, t, Accepted(q, ins, 1)))
  {
    hide *;
    Progress(q, ins, more, t);
    RunIsRelationalJoin(q, ins + more, t);
    Settled(q, ins, more, t, 0);
    Settled(q, ins, more, t, 1);
  }
}
