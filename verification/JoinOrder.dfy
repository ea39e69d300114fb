/** The order of the join's output: by window, and within one input by padded side and by consumed tuple. */
module JoinOrder {
  import opened Options
  import opened MultisetSum
  import opened Join
  import opened JoinProofs
  import opened JoinRuns
  import opened JoinTheorems
  import T = Table

  // ------------------------------------------------ over whole runs the windows follow each other

  ghost predicate InOrder<O>(log: seq<Emit<O>>) {
    forall i, j :: 0 <= i < j < |log| ==> log[i].ts <= log[j].ts
  }

  /** Everything in the log belongs to the current window or an earlier one; before it is valid nothing is emitted. */
  ghost predicate UpTo<X, K, O>(s: State<X, K>, log: seq<Emit<O>>) {
    if s.valid then forall i :: 0 <= i < |log| ==> log[i].ts <= s.curr else log == []
  }

  /** All emissions belong to window t. */
  ghost predicate Within<O>(log: seq<Emit<O>>, t: int) {
    forall i :: 0 <= i < |log| ==> log[i].ts == t
  }

  lemma OrderConcat<O>(a: seq<Emit<O>>, b: seq<Emit<O>>, t: int)
    requires InOrder(a) && (forall i :: 0 <= i < |a| ==> a[i].ts <= t) && Within(b, t)
    ensures InOrder(a + b)
  {
  }

  lemma {:induction false} DrainWithin<X, K, O>(q: Query<X, K, O>, s: State<X, K>, c: nat)
    requires c < 2 && Sized(s)
    ensures Within(Drain(q, s, c).log, s.curr) && (!s.valid ==> Drain(q, s, c).log == [])
    decreases |s.queue[c]|
  {
    if s.valid && s.queue[c] != [] && Ts(q, c, s.queue[c][0]) == s.curr {
      hide Probe, Touch, T.Insert;
      DrainWithin(q, DrainOne(q, s, c).s, c);
    }
  }

  lemma ProcessWithin<X, K, O>(q: Query<X, K, O>, s: State<X, K>)
    requires Sized(s)
    ensures var r := ProcessJoin(q, s);
            && Within(r.log, s.curr) && (!s.valid ==> r.log == [])
            && r.s.valid == s.valid && r.s.curr == s.curr && r.s.maxTs == s.maxTs
  {
    hide Drain;
    DrainKeeps(q, s, 0);
    DrainKeeps(q, Drain(q, s, 0).s, 1);
    DrainWithin(q, s, 0);
    DrainWithin(q, Drain(q, s, 0).s, 1);
  }

  lemma AdvanceWithin<X, K, O>(q: Query<X, K, O>, s: State<X, K>)
    requires Sized(s)
    ensures var r := Advance(q, s);
            && Within(r.log, s.curr) && s.curr <= r.s.curr && (r.log != [] ==> s.curr < r.s.curr)
            && r.s.valid == s.valid && r.s.maxTs == s.maxTs
            && (s.maxTs[0].None? || s.maxTs[1].None? ==> r.log == [])
  {
    hide PadSide, T.Cleared;
  }

  lemma AdmitValid<X, K, O>(q: Query<X, K, O>, s: State<X, K>, x: Input<X>)
    requires Sized(s) && (s.valid <==> s.maxTs[0].Some? && s.maxTs[1].Some?) && Admit(q, s, x).Some?
    ensures var a := Admit(q, s, x).value;
            && (a.valid <==> a.maxTs[0].Some? && a.maxTs[1].Some?)
            && (s.valid ==> a.valid && a.curr == s.curr)
  {
    hide CompareQts;
  }

  /**
   * What one input emits: first the outputs of the window it closes, if it closes one, then those of the window that is
   * current afterwards.
   */
  lemma StepWithin<X, K, O>(q: Query<X, K, O>, s: State<X, K>, x: Input<X>)
      returns (closed: seq<Emit<O>>, current: seq<Emit<O>>)
    requires Sized(s) && (s.valid <==> s.maxTs[0].Some? && s.maxTs[1].Some?)
    ensures var r := Step(q, s, x);
            && r.log == closed + current && Within(current, r.s.curr)
            && (closed != [] ==>
                  r.s.valid && exists t :: t < r.s.curr && Within(closed, t) && (s.valid ==> t == s.curr))
            && (s.valid ==> s.curr <= r.s.curr && r.s.valid) && (!r.s.valid ==> r.log == [])
  {
    hide ProcessJoin, Advance, Admit;
    closed, current := [], [];
    if Admit(q, s, x).Some? {
      var a := Admit(q, s, x).value;
      AdmitValid(q, s, x);
      AdvanceWithin(q, a);
      ProcessWithin(q, Advance(q, a).s);
      closed, current := Advance(q, a).log, ProcessJoin(q, Advance(q, a).s).log;
      assert Within(closed, a.curr);
    }
  }

  /**
   * In every run, aligned or not, the outputs leave in the order of their windows: no output of a window follows one of
   * a later window.
   */
  lemma {:induction false} RunInOrder<X, K, O>(q: Query<X, K, O>, ins: seq<Input<X>>)
    ensures InOrder(Run(q, ins).log) && UpTo(Run(q, ins).s, Run(q, ins).log)
  {
    if ins != [] {
      hide Step;
      var pre, x := ins[..|ins| - 1], ins[|ins| - 1];
      var r := Run(q, pre);
      RunInOrder(q, pre);
      RunValid(q, pre);
      var closed, current := StepWithin(q, r.s, x);
      StepOrder(r.s, r.log, Step(q, r.s, x), closed, current);
    }
  }

  lemma StepOrder<X, K, O>(s: State<X, K>, log: seq<Emit<O>>, r: Result<X, K, O>, closed: seq<Emit<O>>,
      current: seq<Emit<O>>)
    requires InOrder(log) && UpTo(s, log) && r.log == closed + current && Within(current, r.s.curr)
    requires closed != [] ==> r.s.valid && exists t :: t < r.s.curr && Within(closed, t) && (s.valid ==> t == s.curr)
    requires (s.valid ==> s.curr <= r.s.curr && r.s.valid) && (!r.s.valid ==> r.log == [])
    ensures InOrder(log + r.log) && UpTo(r.s, log + r.log)
  {
    if closed == [] {
      assert log + r.log == log + current;
      OrderConcat(log, current, r.s.curr);
    } else {
      var t :| t < r.s.curr && Within(closed, t) && (s.valid ==> t == s.curr);
      OrderConcat(log, closed, t);
      OrderConcat(log + closed, current, r.s.curr);
      assert (log + closed) + current == log + r.log;
    }
  }

  // ------------------------------------------------ within one input

  ghost function Flat<O>(parts: seq<seq<O>>): seq<O> {
    if parts == [] then [] else parts[0] + Flat(parts[1..])
  }

  lemma TagConcat<O>(t: int, a: seq<O>, b: seq<O>)
    ensures Tag(t, a + b) == Tag(t, a) + Tag(t, b)
  {
  }

  /** One list of outputs for each tuple of xs: the matches of that tuple of channel c with the tuples ys. */
  ghost predicate MatchLists<X, K, O>(q: Query<X, K, O>, c: nat, xs: seq<X>, ys: seq<X>, parts: seq<seq<O>>) {
    |parts| == |xs| && forall i :: 0 <= i < |xs| ==> multiset(parts[i]) == Sum(One(q, c, xs[i]), ys)
  }

  /** The outputs that the front tuple of queue c forms are its matches with the consumed tuples of the window. */
  lemma DrainOneEmits<X, K, O>(q: Query<X, K, O>, acc: seq<seq<X>>, done: seq<seq<X>>, s: State<X, K>,
      log: seq<Emit<O>>, c: nat) returns (part: seq<O>)
    requires c < 2 && Inv(q, acc, done, s, log)
    requires s.valid && s.queue[c] != [] && Ts(q, c, s.queue[c][0]) == s.curr
    ensures DrainOne(q, s, c).log == Tag(s.curr, part)
    ensures multiset(part) == Sum(One(q, c, s.queue[c][0]), AtTs(q, Other(c), s.curr, done[Other(c)]))
  {
    hide ChanOk, LogOk, Probe, Touch, T.Insert, AtTs, T.Items, T.Valid, Sum, Tups, ItemsOk, Keyed;
    var x, o := s.queue[c][0], Other(c);
    var ys := AtTs(q, o, s.curr, done[o]);
    part := [];
    if q.key(c, x).Some? {
      var k := q.key(c, x).value;
      var others := T.Items(s.tbl[o]);
      ProbeTable(q, c, x, k, s.tbl[o]);
      ItemsKeyed(q, o, others, Tups(T.Items(s.tbl[c])));
      ProbeMatches(q, c, x, k, others);
      SumPerm(One(q, c, x), Tups(others), ys);
      part := Probe(q, c, x, k, others);
    } else {
      NoKeyNoMatch(q, c, x, ys);
    }
  }

  lemma NoKeyNoMatch<X, K, O>(q: Query<X, K, O>, c: nat, x: X, ys: seq<X>)
    requires q.key(c, x).None?
    ensures Sum(One(q, c, x), ys) == multiset{}
  {
    forall i | 0 <= i < |ys| ensures One(q, c, x)(ys[i]) == multiset{} {
      assert !Joins(q, c, x, ys[i]);
    }
    SumZero(One(q, c, x), ys);
  }

  /** A drain consumes the front of the queue, as long as it belongs to the window, and emits one list per tuple. */
  lemma {:induction false} DrainEmits<X, K, O>(q: Query<X, K, O>, acc: seq<seq<X>>, done: seq<seq<X>>, s: State<X, K>,
      log: seq<Emit<O>>, c: nat) returns (taken: seq<X>, parts: seq<seq<O>>)
    requires c < 2 && Inv(q, acc, done, s, log)
    ensures var r := Drain(q, s, c);
            && s.queue[c] == taken + r.s.queue[c] && r.s.queue[Other(c)] == s.queue[Other(c)]
            && (forall i :: 0 <= i < |taken| ==> Ts(q, c, taken[i]) == s.curr)
            && (s.valid && r.s.queue[c] != [] ==> Ts(q, c, r.s.queue[c][0]) != s.curr)
            && MatchLists(q, c, taken, AtTs(q, Other(c), s.curr, done[Other(c)]), parts)
            && r.log == Tag(s.curr, Flat(parts))
            && Inv(q, acc, done[c := done[c] + taken], r.s, log + r.log)
    decreases |s.queue[c]|
  {
    hide Inv, DrainOne, AtTs, Sum, MatchLists, Tag;
    InvSizes(q, acc, done, s, log);
    if s.valid && s.queue[c] != [] && Ts(q, c, s.queue[c][0]) == s.curr {
      var x := s.queue[c][0];
      var part := DrainOneEmits(q, acc, done, s, log, c);
      DrainOneInv(q, acc, done, s, log, c);
      DrainOneQueue(q, s, c);
      var r1 := DrainOne(q, s, c);
      var t2, p2 := DrainEmits(q, acc, done[c := done[c] + [x]], r1.s, log + r1.log, c);
      taken, parts := [x] + t2, [part] + p2;
      assert parts[1..] == p2;
      MatchListsCons(q, c, x, t2, AtTs(q, Other(c), s.curr, done[Other(c)]), part, p2);
      TagConcat(s.curr, part, Flat(p2));
      assert (done[c] + [x]) + t2 == done[c] + taken;
      assert done[c := done[c] + [x]][c := done[c] + taken] == done[c := done[c] + taken];
      assert (log + r1.log) + Drain(q, r1.s, c).log == log + (r1.log + Drain(q, r1.s, c).log);
      assert s.queue[c] == [x] + s.queue[c][1..];
    } else {
      taken, parts := [], [];
      NoMatchLists(q, c, AtTs(q, Other(c), s.curr, done[Other(c)]));
      TagNil<O>(s.curr);
      assert done[c := done[c] + []] == done by { assert done[c] + [] == done[c]; }
      assert log + [] == log;
    }
  }

  lemma MatchListsCons<X, K, O>(q: Query<X, K, O>, c: nat, x: X, xs: seq<X>, ys: seq<X>, part: seq<O>,
      parts: seq<seq<O>>)
    requires MatchLists(q, c, xs, ys, parts) && multiset(part) == Sum(One(q, c, x), ys)
    ensures MatchLists(q, c, [x] + xs, ys, [part] + parts)
  {
    hide Sum, One;
  }

  lemma NoMatchLists<X, K, O>(q: Query<X, K, O>, c: nat, ys: seq<X>)
    ensures MatchLists(q, c, [], ys, [])
  {
  }

  lemma TagNil<O>(t: int)
    ensures Tag<O>(t, []) == []
  {
  }

  lemma DrainOneQueue<X, K, O>(q: Query<X, K, O>, s: State<X, K>, c: nat)
    requires c < 2 && Sized(s) && s.queue[c] != []
    ensures var r := DrainOne(q, s, c).s;
            && r.queue[c] == s.queue[c][1..] && r.queue[Other(c)] == s.queue[Other(c)]
            && r.curr == s.curr && r.valid == s.valid
  {
    hide Probe, Touch, T.Insert, Tag;
  }

  /** The tuples of a channel that have left its queue. */
  ghost function Consumed<X>(acc: seq<X>, queue: seq<X>): seq<X> {
    if |queue| <= |acc| then acc[..|acc| - |queue|] else []
  }

  lemma ConsumedIs<X, K, O>(q: Query<X, K, O>, acc: seq<seq<X>>, done: seq<seq<X>>, s: State<X, K>, log: seq<Emit<O>>,
      c: nat)
    requires c < 2 && Inv(q, acc, done, s, log)
    ensures Consumed(acc[c], s.queue[c]) == done[c]
  {
    hide TblOk, LogOk;
    assert acc[c] == done[c] + s.queue[c];
  }

  /** What the outer join pads when it closes the current window. */
  lemma AdvanceEmits<X, K, O>(q: Query<X, K, O>, acc: seq<seq<X>>, done: seq<seq<X>>, s: State<X, K>,
      log: seq<Emit<O>>) returns (pads: seq<seq<O>>)
    requires Inv(q, acc, done, s, log)
    ensures var r := Advance(q, s);
            && |pads| == 2 && r.log == Tag(s.curr, pads[0] + pads[1]) && r.s.queue == s.queue
            && (s.curr == r.s.curr ==> pads == [[], []])
            && (s.curr < r.s.curr ==>
                  var ls, rs := AtTs(q, 0, s.curr, acc[0]), AtTs(q, 1, s.curr, acc[1]);
                  multiset(pads[0]) == Pads(q, 0, ls, rs) && multiset(pads[1]) == Pads(q, 1, rs, ls))
  {
    hide ChanOk, TblOk, LogOk, AtTs, T.Items, PadItems, Pad, T.Cleared, Sum;
    pads := [[], []];
    if CompareQtsToHashTs(q, s, 0) > 0 && CompareQtsToHashTs(q, s, 1) > 0 {
      var curr' := Advance(q, s).s.curr;
      ChanAdvance(q, 0, acc[0], done[0], s.queue[0], s.maxTs[0], s.curr, curr');
      ChanAdvance(q, 1, acc[1], done[1], s.queue[1], s.maxTs[1], s.curr, curr');
      PadsOk(q, 0, s.curr, done[0], done[1], s.tbl[0], s.tbl[1]);
      PadsOk(q, 1, s.curr, done[1], done[0], s.tbl[1], s.tbl[0]);
      pads := [PadSide(q, s, 0), PadSide(q, s, 1)];
    }
  }

  ghost predicate TakenFront<X, K, O>(q: Query<X, K, O>, c: nat, queue: seq<X>, taken: seq<X>, s: State<X, K>) {
    && c < |s.queue| && queue == taken + s.queue[c]
    && (forall i :: 0 <= i < |taken| ==> Ts(q, c, taken[i]) == s.curr)
    && (s.valid && s.queue[c] != [] ==> Ts(q, c, s.queue[c][0]) != s.curr)
  }

  /** The whole output of one input, in order. */
  ghost predicate Emission<X, K, O>(q: Query<X, K, O>, acc: seq<seq<X>>, t: int, queue: seq<seq<X>>, r: Result<X, K, O>,
      pads: seq<seq<O>>, taken: seq<seq<X>>, parts: seq<seq<seq<O>>>)
  {
    && |acc| == |queue| == |pads| == |taken| == |parts| == |r.s.queue| == 2
    // padded left tuples, padded right tuples, then the lists of the consumed left tuples and of the right ones
    && r.log == Tag(t, pads[0] + pads[1]) + Tag(r.s.curr, Flat(parts[0]) + Flat(parts[1]))
    // the padding is what the closed window t owes
    && (t == r.s.curr ==> pads == [[], []])
    && (t != r.s.curr ==>
          var ls, rs := AtTs(q, 0, t, acc[0]), AtTs(q, 1, t, acc[1]);
          t < r.s.curr && multiset(pads[0]) == Pads(q, 0, ls, rs) && multiset(pads[1]) == Pads(q, 1, rs, ls))
    // the consumed tuples are the front of each queue, as far as it belongs to the window
    && (forall c: nat :: c < 2 ==> TakenFront(q, c, queue[c], taken[c], r.s))
    // a left tuple meets the right ones consumed before this input, a right tuple all consumed left ones
    && MatchLists(q, 0, taken[0], AtTs(q, 1, r.s.curr, Consumed(acc[1], queue[1])), parts[0])
    && MatchLists(q, 1, taken[1], AtTs(q, 0, r.s.curr, Consumed(acc[0], r.s.queue[0])), parts[1])
  }

  /** The output of the operator from its admitted state on. */
  lemma ProcessEmits<X, K, O>(q: Query<X, K, O>, acc: seq<seq<X>>, done: seq<seq<X>>, a: State<X, K>,
      log: seq<Emit<O>>) returns (pads: seq<seq<O>>, taken: seq<seq<X>>, parts: seq<seq<seq<O>>>)
    requires Inv(q, acc, done, a, log)
    ensures Sized(a)
    ensures var r1 := Advance(q, a);
            var r2 := ProcessJoin(q, r1.s);
            Emission(q, acc, a.curr, a.queue, Result(r2.s, r1.log + r2.log), pads, taken, parts)
  {
    hide Inv, Drain, Advance, AtTs, Consumed, Pads, Sum;
    InvSizes(q, acc, done, a, log);
    var r1 := Advance(q, a);
    pads := AdvanceEmits(q, acc, done, a, log);
    AdvanceForward(q, a);
    AdvanceInv(q, acc, done, a, log);
    var t0, p0 := DrainEmits(q, acc, done, r1.s, log + r1.log, 0);
    var d0 := Drain(q, r1.s, 0);
    var t1, p1 := DrainEmits(q, acc, done[0 := done[0] + t0], d0.s, log + r1.log + d0.log, 1);
    taken, parts := [t0, t1], [p0, p1];
    DrainKeeps(q, r1.s, 0);
    DrainKeeps(q, d0.s, 1);
    InvSizes(q, acc, done, r1.s, log + r1.log);
    ConsumedIs(q, acc, done, r1.s, log + r1.log, 1);
    ConsumedIs(q, acc, done[0 := done[0] + t0], d0.s, log + r1.log + d0.log, 0);
    TagConcat(r1.s.curr, Flat(p0), Flat(p1));
  }

  lemma AdvanceForward<X, K, O>(q: Query<X, K, O>, s: State<X, K>)
    requires Sized(s)
    ensures s.curr <= Advance(q, s).s.curr
  {
    hide PadSide, T.Cleared, Tag;
  }

  lemma InvSizes<X, K, O>(q: Query<X, K, O>, acc: seq<seq<X>>, done: seq<seq<X>>, s: State<X, K>, log: seq<Emit<O>>)
    requires Inv(q, acc, done, s, log)
    ensures Sized(s) && |acc| == |done| == |s.queue| == 2
  {
    hide ChanOk, TblOk, LogOk;
  }

  /**
   * The output of one input of an aligned run, exactly and in order: the padding of the window it closes, left side
   * before right, then for every tuple it consumes, left channel first and each in arrival order, the matches of that
   * tuple.
   */
  lemma InputEmits<X, K, O>(q: Query<X, K, O>, ins: seq<Input<X>>, x: Input<X>)
      returns (pads: seq<seq<O>>, taken: seq<seq<X>>, parts: seq<seq<seq<O>>>)
    requires AlignedRun(q, ins + [x])
    ensures Run(q, ins + [x]).log == Run(q, ins).log + Step(q, Run(q, ins).s, x).log
    ensures var s := Run(q, ins).s;
            var a := Admit(q, s, x);
            var r := Step(q, s, x);
            && (a.None? ==> r.log == [])
            && (a.Some? ==>
                  Emission(q, AcceptedBoth(q, ins + [x]), a.value.curr, a.value.queue, r, pads, taken, parts))
  {
    hide Inv, Advance, ProcessJoin, Emission, Extend, AcceptedBoth, Admit, AlignedInput;
    pads, taken, parts := [], [], [];
    assert (ins + [x])[..|ins|] == ins;
    var s, log := Run(q, ins).s, Run(q, ins).log;
    var done := RunInv(q, ins);
    RunMaxTs(q, ins);
    ExtendAccepted(q, ins, x, s);
    AdmitInv(q, AcceptedBoth(q, ins), done, s, log, x);
    if Admit(q, s, x).Some? {
      pads, taken, parts := ProcessEmits(q, AcceptedBoth(q, ins + [x]), done, Admit(q, s, x).value, log);
    }
  }
}
