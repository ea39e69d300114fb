/** The main theorems about the join operator. */
module JoinTheorems {
  import opened Options
  import opened MultisetSum
  import opened Join
  import opened JoinProofs
  import opened JoinRuns
  import T = Table

  /** Every input of the run meets an aligned start. */
  predicate AlignedRun<X, K(==), O>(q: Query<X, K, O>, ins: seq<Input<X>>) {
    ins == [] ||
    (AlignedRun(q, ins[..|ins| - 1]) && AlignedInput(q, Run(q, ins[..|ins| - 1]).s, ins[|ins| - 1]))
  }

  ghost function AcceptedBoth<X, K, O>(q: Query<X, K, O>, ins: seq<Input<X>>): (r: seq<seq<X>>)
    ensures |r| == 2
  {
    [Accepted(q, ins, 0), Accepted(q, ins, 1)]
  }

  /** The operator's channel maxima are the greatest timestamps received, aligned start or not. */
  lemma {:induction false} RunMaxTs<X, K, O>(q: Query<X, K, O>, ins: seq<Input<X>>)
    ensures Run(q, ins).s.maxTs == [MaxTs(q, ins, 0), MaxTs(q, ins, 1)]
  {
    if ins != [] {
      var pre, x := ins[..|ins| - 1], ins[|ins| - 1];
      RunMaxTs(q, pre);
      StepMaxTs(q, Run(q, pre).s, x);
    }
  }

  lemma {:induction false} DrainKeeps<X, K, O>(q: Query<X, K, O>, s: State<X, K>, c: nat)
    requires c < 2 && Sized(s)
    ensures var r := Drain(q, s, c).s; r.maxTs == s.maxTs && r.curr == s.curr && r.valid == s.valid
    decreases |s.queue[c]|
  {
    if s.valid && s.queue[c] != [] && Ts(q, c, s.queue[c][0]) == s.curr {
      DrainKeeps(q, DrainOne(q, s, c).s, c);
    }
  }

  function NextMax<X, K, O>(q: Query<X, K, O>, max: Option<int>, x: Input<X>, c: nat): Option<int> {
    if x.channel == c && q.ts(c, x.tup).Some? && (max.None? || max.value < Ts(q, c, x.tup))
    then q.ts(c, x.tup) else max
  }

  lemma StepMaxTs<X, K, O>(q: Query<X, K, O>, s: State<X, K>, x: Input<X>)
    requires Sized(s)
    ensures Step(q, s, x).s.maxTs == [NextMax(q, s.maxTs[0], x, 0), NextMax(q, s.maxTs[1], x, 1)]
  {
    hide Drain, DrainOne, PadSide, Tag, CompareQts, CompareQtsToHashTs, T.Cleared, Head;
    var a := Admit(q, s, x);
    if a.Some? {
      var s1 := Advance(q, a.value).s;
      DrainKeeps(q, s1, 0);
      DrainKeeps(q, Drain(q, s1, 0).s, 1);
    }
  }

  lemma AcceptedSnoc<X, K, O>(q: Query<X, K, O>, pre: seq<Input<X>>, x: Input<X>, c: nat)
    ensures Accepted(q, pre + [x], c) == Accepted(q, pre, c)
      + (if x.channel == c && Accepts(q, MaxTs(q, pre, c), c, x.tup) then [x.tup] else [])
  {
    assert (pre + [x])[..|pre|] == pre;
  }

  lemma ExtendAccepted<X, K, O>(q: Query<X, K, O>, pre: seq<Input<X>>, x: Input<X>, s: State<X, K>)
    requires Sized(s) && s.maxTs == [MaxTs(q, pre, 0), MaxTs(q, pre, 1)]
    ensures AcceptedBoth(q, pre + [x]) == Extend(q, AcceptedBoth(q, pre), s, x)
  {
    hide Accepted, MaxTs, Accepts;
    AcceptedSnoc(q, pre, x, 0);
    AcceptedSnoc(q, pre, x, 1);
    assert Accepted(q, pre, 0) + [] == Accepted(q, pre, 0);
    assert Accepted(q, pre, 1) + [] == Accepted(q, pre, 1);
  }

  /** Every run from an aligned start keeps the invariant. */
  lemma {:induction false} RunInv<X, K, O>(q: Query<X, K, O>, ins: seq<Input<X>>) returns (done: seq<seq<X>>)
    requires AlignedRun(q, ins)
    ensures Inv(q, AcceptedBoth(q, ins), done, Run(q, ins).s, Run(q, ins).log)
  {
    hide Inv, Step, AlignedInput, AcceptedBoth, Accepted, MaxTs;
    if ins == [] {
      done := [[], []];
      InitInv(q);
      AcceptedNil(q);
    } else {
      var pre, x := ins[..|ins| - 1], ins[|ins| - 1];
      var r := Run(q, pre);
      var d := RunInv(q, pre);
      RunMaxTs(q, pre);
      done := StepInv(q, AcceptedBoth(q, pre), d, r.s, r.log, x);
      ExtendAccepted(q, pre, x, r.s);
      assert pre + [x] == ins;
    }
  }

  lemma AcceptedNil<X, K, O>(q: Query<X, K, O>)
    ensures AcceptedBoth(q, []) == [[], []]
  {
  }

  /**
   * Once curr_ts has passed t, the operator has emitted for t exactly the relational join of the accepted tuples of t:
   * every equal-key pair once, and for an outer side every tuple that joined with nothing once, padded.
   */
  lemma RunIsRelationalJoin<X, K, O>(q: Query<X, K, O>, ins: seq<Input<X>>, t: int)
    requires AlignedRun(q, ins) && Run(q, ins).s.valid && t < Run(q, ins).s.curr
    ensures At(Run(q, ins).log, t)
         == Relational(q, AtTs(q, 0, t, Accepted(q, ins, 0)), AtTs(q, 1, t, Accepted(q, ins, 1)))
  {
    hide *;
    var done := RunInv(q, ins);
    PastOf(q, AcceptedBoth(q, ins), done, Run(q, ins).s, Run(q, ins).log, t);
    BothIs(q, ins);
  }

  lemma BothIs<X, K, O>(q: Query<X, K, O>, ins: seq<Input<X>>)
    ensures AcceptedBoth(q, ins) == [Accepted(q, ins, 0), Accepted(q, ins, 1)]
  {
  }

  lemma PastOf<X, K, O>(q: Query<X, K, O>, acc: seq<seq<X>>, done: seq<seq<X>>, s: State<X, K>, log: seq<Emit<O>>,
      t: int)
    requires |acc| == 2 && Inv(q, acc, done, s, log) && s.valid && t < s.curr
    ensures At(log, t) == Relational(q, AtTs(q, 0, t, acc[0]), AtTs(q, 1, t, acc[1]))
  {
    hide ChanOk, TblOk, At, Relational, AtTs, Pairs;
  }

  /** For an inner join the emitted outputs are exactly the equal-key pairs. */
  lemma RunIsInnerJoin<X, K, O>(q: Query<X, K, O>, ins: seq<Input<X>>, t: int)
    requires AlignedRun(q, ins) && Run(q, ins).s.valid && t < Run(q, ins).s.curr && q.joinType == 0
    ensures At(Run(q, ins).log, t)
         == Pairs(q, AtTs(q, 0, t, Accepted(q, ins, 0)), AtTs(q, 1, t, Accepted(q, ins, 1)))
  {
    hide *;
    RunIsRelationalJoin(q, ins, t);
    InnerRelational(q, AtTs(q, 0, t, Accepted(q, ins, 0)), AtTs(q, 1, t, Accepted(q, ins, 1)));
  }

  lemma InnerRelational<X, K, O>(q: Query<X, K, O>, ls: seq<X>, rs: seq<X>)
    requires q.joinType == 0
    ensures Relational(q, ls, rs) == Pairs(q, ls, rs)
  {
    hide Pairs, Sum, Pad;
  }

  /** Nothing is emitted for a timestamp before it is current, nor before both channels are known. */
  lemma NothingEarly<X, K, O>(q: Query<X, K, O>, ins: seq<Input<X>>, t: int)
    requires AlignedRun(q, ins) && (!Run(q, ins).s.valid || t > Run(q, ins).s.curr)
    ensures At(Run(q, ins).log, t) == multiset{}
  {
    var done := RunInv(q, ins);
    hide Run, ChanOk, TblOk, Relational, AtTs, Pairs, AcceptedBoth, AlignedRun;
  }

  ghost predicate Sorted<X, K, O>(q: Query<X, K, O>, c: nat, xs: seq<X>) {
    forall i, j :: 0 <= i < j < |xs| ==> Ts(q, c, xs[i]) <= Ts(q, c, xs[j])
  }

  predicate NoneBehind<X, K, O>(q: Query<X, K, O>, c: nat, xs: seq<X>, curr: int) {
    forall i :: 0 <= i < |xs| ==> curr <= Ts(q, c, xs[i])
  }

  /** No queued tuple is older than the current timestamp. */
  predicate QueuesAhead<X, K, O>(q: Query<X, K, O>, s: State<X, K>)
    requires Sized(s)
  {
    s.valid ==> NoneBehind(q, 0, s.queue[0], s.curr) && NoneBehind(q, 1, s.queue[1], s.curr)
  }

  lemma ChanShape<X, K, O>(q: Query<X, K, O>, c: nat, acc: seq<X>, done: seq<X>, queue: seq<X>, max: Option<int>,
      curr: int, valid: bool)
    requires ChanOk(q, c, acc, done, queue, max, curr, valid)
    ensures queue <= acc[|done|..] <= queue && Sorted(q, c, queue)
    ensures valid ==> NoneBehind(q, c, queue, curr) && max.Some? && curr <= max.value
  {
    assert queue == acc[|done|..];
  }

  lemma TblShape<X, K, O>(q: Query<X, K, O>, c: nat, curr: int, done: seq<X>, mine: T.Table<K, Stored<X>>,
      other: T.Table<K, Stored<X>>)
    requires TblOk(q, c, curr, done, mine, other)
    ensures forall x :: x in T.Items(mine) ==> Ts(q, c, x.val.tup) == curr && q.key(c, x.val.tup) == Some(x.key)
  {
    hide T.Items, T.Valid, AtTs;
    var items := T.Items(mine);
    forall x | x in items
      ensures Ts(q, c, x.val.tup) == curr && q.key(c, x.val.tup) == Some(x.key)
    {
      var i :| 0 <= i < |items| && items[i] == x;
      assert Tups(items)[i] == x.val.tup;
      assert x.val.tup in multiset(Tups(items));
      assert x.val.tup in AtTs(q, c, curr, done);
      AtTsMember(q, c, curr, done, x.val.tup);
    }
  }

  lemma {:induction false} AtTsMember<X, K, O>(q: Query<X, K, O>, c: nat, t: int, xs: seq<X>, x: X)
    requires x in AtTs(q, c, t, xs)
    ensures Ts(q, c, x) == t && q.key(c, x).Some?
  {
    if xs != [] && x in AtTs(q, c, t, xs[..|xs| - 1]) {
      AtTsMember(q, c, t, xs[..|xs| - 1], x);
    }
  }

  /**
   * Every aligned run keeps the queues in timestamp order and not behind curr_ts, curr_ts not beyond either channel,
   * and the hash tables filled with tuples of curr_ts only.
   */
  lemma RunKeepsOrder<X, K, O>(q: Query<X, K, O>, ins: seq<Input<X>>, c: nat)
    requires AlignedRun(q, ins) && c < 2
    ensures var s := Run(q, ins).s;
            && Sorted(q, c, s.queue[c]) && QueuesAhead(q, s)
            && (s.valid ==> s.maxTs[c].Some? && s.curr <= s.maxTs[c].value)
            && (forall x :: x in T.Items(s.tbl[c]) ==>
                  Ts(q, c, x.val.tup) == s.curr && q.key(c, x.val.tup) == Some(x.key))
  {
    hide *;
    var done := RunInv(q, ins);
    var s, acc := Run(q, ins).s, AcceptedBoth(q, ins);
    InvShape(q, acc, done, s, Run(q, ins).log, c);
  }

  lemma InvShape<X, K, O>(q: Query<X, K, O>, acc: seq<seq<X>>, done: seq<seq<X>>, s: State<X, K>, log: seq<Emit<O>>,
      c: nat)
    requires c < 2 && Inv(q, acc, done, s, log)
    ensures Sized(s) && Sorted(q, c, s.queue[c]) && QueuesAhead(q, s)
    ensures s.valid ==> s.maxTs[c].Some? && s.curr <= s.maxTs[c].value
    ensures forall x :: x in T.Items(s.tbl[c]) ==> Ts(q, c, x.val.tup) == s.curr && q.key(c, x.val.tup) == Some(x.key)
  {
    hide ChanOk, TblOk, LogOk, Sorted, NoneBehind, T.Items, Ts;
    ChanShape(q, 0, acc[0], done[0], s.queue[0], s.maxTs[0], s.curr, s.valid);
    ChanShape(q, 1, acc[1], done[1], s.queue[1], s.maxTs[1], s.curr, s.valid);
    TblShape(q, c, s.curr, done[c], s.tbl[c], s.tbl[Other(c)]);
  }

  /** The guard under which accept_tuple closes the current window: both channels have moved past curr_ts. */
  predicate BothPast<X, K, O>(q: Query<X, K, O>, s: State<X, K>)
    requires Sized(s)
  {
    CompareQtsToHashTs(q, s, 0) > 0 && CompareQtsToHashTs(q, s, 1) > 0
  }

  /** curr_ts never moves back, and it moves strictly forward exactly when both channels have moved past it. */
  lemma CurrTsIncreases<X, K, O>(q: Query<X, K, O>, ins: seq<Input<X>>, x: Input<X>)
    requires Run(q, ins).s.valid
    ensures var s, s' := Run(q, ins).s, Run(q, ins + [x]).s;
            && s'.valid && s.curr <= s'.curr
            && (s.curr < s'.curr <==> Admit(q, s, x).Some? && BothPast(q, Admit(q, s, x).value))
  {
    assert (ins + [x])[..|ins|] == ins;
    RunValid(q, ins);
    hide Step, Admit, BothPast;
    StepCurr(q, Run(q, ins).s, x);
  }

  lemma StepCurr<X, K, O>(q: Query<X, K, O>, s: State<X, K>, x: Input<X>)
    requires Sized(s) && s.valid && s.maxTs[0].Some? && s.maxTs[1].Some?
    ensures var s' := Step(q, s, x).s;
            && s'.valid && s.curr <= s'.curr
            && (s.curr < s'.curr <==> Admit(q, s, x).Some? && BothPast(q, Admit(q, s, x).value))
  {
    hide Drain, DrainOne, PadSide, Tag, T.Cleared;
    if Admit(q, s, x).Some? {
      var s1 := Advance(q, Admit(q, s, x).value).s;
      DrainKeeps(q, s1, 0);
      DrainKeeps(q, Drain(q, s1, 0).s, 1);
    }
  }

  lemma {:induction false} RunValid<X, K, O>(q: Query<X, K, O>, ins: seq<Input<X>>)
    ensures var s := Run(q, ins).s; s.valid <==> s.maxTs[0].Some? && s.maxTs[1].Some?
  {
    if ins != [] {
      RunValid(q, ins[..|ins| - 1]);
      hide Step;
      StepValid(q, Run(q, ins[..|ins| - 1]).s, ins[|ins| - 1]);
    }
  }

  lemma StepValid<X, K, O>(q: Query<X, K, O>, s: State<X, K>, x: Input<X>)
    requires Sized(s) && (s.valid <==> s.maxTs[0].Some? && s.maxTs[1].Some?)
    ensures var s' := Step(q, s, x).s; s'.valid <==> s'.maxTs[0].Some? && s'.maxTs[1].Some?
  {
    hide Drain, DrainOne, PadSide, Tag, CompareQts, CompareQtsToHashTs, T.Cleared, Head;
    if Admit(q, s, x).Some? {
      var s1 := Advance(q, Admit(q, s, x).value).s;
      DrainKeeps(q, s1, 0);
      DrainKeeps(q, Drain(q, s1, 0).s, 1);
    }
  }

  // ------------------------------------------------ the memory counter

  function Bytes<X, K, O>(q: Query<X, K, O>, xs: seq<X>): int {
    if xs == [] then 0 else Bytes(q, xs[..|xs| - 1]) + q.size(xs[|xs| - 1])
  }

  lemma {:induction false} BytesFront<X, K, O>(q: Query<X, K, O>, xs: seq<X>)
    requires xs != []
    ensures Bytes(q, xs) == q.size(xs[0]) + Bytes(q, xs[1..])
  {
    if |xs| > 1 {
      BytesFront(q, xs[..|xs| - 1]);
      assert xs[..|xs| - 1][1..] == xs[1..][..|xs| - 2];
    }
  }

  ghost predicate MemOk<X, K, O>(q: Query<X, K, O>, s: State<X, K>) {
    Sized(s) && s.mem == (Bytes(q, s.queue[0]) + Bytes(q, s.queue[1])) % WORD
  }

  lemma MemAppend<X, K, O>(q: Query<X, K, O>, s: State<X, K>, c: nat, x: X)
    requires c < 2 && MemOk(q, s)
    ensures MemOk(q, Append(q, s, c, x))
  {
    assert (s.queue[c] + [x])[..|s.queue[c]|] == s.queue[c];
    ModShift(Bytes(q, s.queue[0]) + Bytes(q, s.queue[1]), q.size(x));
  }

  lemma MemDrainOne<X, K, O>(q: Query<X, K, O>, s: State<X, K>, c: nat)
    requires c < 2 && MemOk(q, s) && s.queue[c] != []
    ensures MemOk(q, DrainOne(q, s, c).s)
  {
    hide Probe, Touch, T.Insert, Tag, Bytes;
    BytesFront(q, s.queue[c]);
    var total := Bytes(q, s.queue[0]) + Bytes(q, s.queue[1]);
    var n: int := q.size(s.queue[c][0]);
    assert (s.mem - n) % WORD == (total - n) % WORD by { ModShift(total, -n); }
    var s' := DrainOne(q, s, c).s;
    assert s'.mem == (s.mem - n) % WORD;
    assert Bytes(q, s'.queue[0]) + Bytes(q, s'.queue[1]) == total - n;
  }

  lemma ModShift(a: int, n: int)
    ensures (a % WORD + n) % WORD == (a + n) % WORD
  {
  }

  lemma {:induction false} MemDrain<X, K, O>(q: Query<X, K, O>, s: State<X, K>, c: nat)
    requires c < 2 && MemOk(q, s)
    ensures MemOk(q, Drain(q, s, c).s)
    decreases |s.queue[c]|
  {
    if s.valid && s.queue[c] != [] && Ts(q, c, s.queue[c][0]) == s.curr {
      hide DrainOne, Bytes;
      MemDrainOne(q, s, c);
      MemDrain(q, DrainOne(q, s, c).s, c);
    }
  }

  lemma MemAdmit<X, K, O>(q: Query<X, K, O>, s: State<X, K>, x: Input<X>)
    requires MemOk(q, s) && Admit(q, s, x).Some?
    ensures MemOk(q, Admit(q, s, x).value)
  {
    hide Bytes, Append, CompareQts;
    var c, t := x.channel, Ts(q, x.channel, x.tup);
    var s1 := Start(q, s, c, t);
    var s2 := s1.(maxTs := s1.maxTs[c := Some(t)]);
    assert MemOk(q, s2);
    MemAppend(q, s2, c, x.tup);
  }

  lemma MemStep<X, K, O>(q: Query<X, K, O>, s: State<X, K>, x: Input<X>)
    requires MemOk(q, s)
    ensures MemOk(q, Step(q, s, x).s)
  {
    hide Admit, Advance, Drain, Bytes;
    if Admit(q, s, x).Some? {
      var a := Admit(q, s, x).value;
      MemAdmit(q, s, x);
      MemAdvance(q, a);
      MemDrain(q, Advance(q, a).s, 0);
      MemDrain(q, Drain(q, Advance(q, a).s, 0).s, 1);
    }
  }

  lemma MemAdvance<X, K, O>(q: Query<X, K, O>, s: State<X, K>)
    requires Sized(s) && MemOk(q, s)
    ensures MemOk(q, Advance(q, s).s)
  {
    hide Bytes, CompareQts, PadSide, T.Cleared, Tag, CompareQtsToHashTs, Head;
  }

  /** queue_mem is always the number of queued bytes, modulo the width of the counter. */
  lemma {:induction false} RunMem<X, K, O>(q: Query<X, K, O>, ins: seq<Input<X>>)
    ensures MemOk(q, Run(q, ins).s)
  {
    if ins != [] {
      RunMem(q, ins[..|ins| - 1]);
      hide Step, MemOk;
      MemStep(q, Run(q, ins[..|ins| - 1]).s, ins[|ins| - 1]);
    }
  }

  // ------------------------------------------------ misaligned starts

  /** The early channel e has a queued tuple older than curr_ts and its table is empty. */
  ghost predicate Stuck<X, K, O>(q: Query<X, K, O>, s: State<X, K>, e: nat) {
    && e < 2 && Sized(s)
    && s.valid && s.maxTs[0].Some? && s.maxTs[1].Some?
    && s.queue[e] != [] && Ts(q, e, s.queue[e][0]) < s.curr
    && T.Valid(s.tbl[e], q.hash) && s.tbl[e].used == []
  }

  lemma EmptyProbe<X, K, O>(q: Query<X, K, O>, c: nat, x: X, k: K, t: T.Table<K, Stored<X>>, b: nat)
    requires T.Valid(t, q.hash) && t.used == [] && b < |t.chains|
    ensures Probe(q, c, x, k, t.chains[b]) == []
    ensures t.(chains := t.chains[b := Touch(q, c, x, k, t.chains[b])]) == t
  {
    assert t.chains[b] == [];
    assert Touch(q, c, x, k, t.chains[b]) == [];
    assert t.chains[b := []] == t.chains;
  }

  lemma {:induction false} StuckDrain<X, K, O>(q: Query<X, K, O>, s: State<X, K>, e: nat, c: nat)
    requires Stuck(q, s, e) && c < 2
    ensures var r := Drain(q, s, c); Stuck(q, r.s, e) && r.log == [] && r.s.curr == s.curr
    decreases |s.queue[c]|
  {
    if c != e && s.queue[c] != [] && Ts(q, c, s.queue[c][0]) == s.curr {
      var x := s.queue[c][0];
      if q.key(c, x).Some? {
        var k := q.key(c, x).value;
        EmptyProbe(q, c, x, k, s.tbl[e], T.Bucket(s.tbl[e], q.hash, k));
      }
      hide Probe, Touch, T.Insert, T.Valid;
      StuckDrain(q, DrainOne(q, s, c).s, e, c);
    }
  }

  lemma StuckStep<X, K, O>(q: Query<X, K, O>, s: State<X, K>, e: nat, x: Input<X>)
    requires Stuck(q, s, e)
    ensures var r := Step(q, s, x); Stuck(q, r.s, e) && r.log == [] && r.s.curr == s.curr
  {
    hide Drain, DrainOne, PadSide, Tag, T.Valid, CompareQts;
    if Admit(q, s, x).Some? {
      var a := Admit(q, s, x).value;
      assert Stuck(q, a, e) && a.curr == s.curr;
      AdvanceStuck(q, a, e);
      hide Advance, Admit, Stuck;
      StuckDrain(q, a, e, 0);
      StuckDrain(q, Drain(q, a, 0).s, e, 1);
    }
  }

  lemma {:induction false} StuckRun<X, K, O>(q: Query<X, K, O>, ins: seq<Input<X>>, more: seq<Input<X>>, e: nat)
    requires Stuck(q, Run(q, ins).s, e)
    ensures Stuck(q, Run(q, ins + more).s, e)
    ensures Run(q, ins + more).log == Run(q, ins).log && Run(q, ins + more).s.curr == Run(q, ins).s.curr
    decreases |more|
  {
    hide Stuck, Step;
    if more == [] {
      assert ins + more == ins;
    } else {
      var n := |more| - 1;
      StuckRun(q, ins, more[..n], e);
      assert (ins + more)[..|ins + more| - 1] == ins + more[..n];
      StuckStep(q, Run(q, ins + more[..n]).s, e, more[n]);
    }
  }

  lemma MisalignedStart<X, K, O>(q: Query<X, K, O>, acc: seq<seq<X>>, done: seq<seq<X>>, s: State<X, K>,
      log: seq<Emit<O>>, x: Input<X>)
    requires Inv(q, acc, done, s, log) && Sized(s) && !AlignedInput(q, s, x)
    ensures log == []
    ensures x.channel < 2 && q.ts(x.channel, x.tup).Some?
    ensures var r := Step(q, s, x);
            Stuck(q, r.s, Other(x.channel)) && r.log == []
                && r.s.curr == Start(q, s, x.channel, Ts(q, x.channel, x.tup)).curr
  {
    hide ChanOk, TblOk, LogOk, Step, T.Valid, T.Items;
    var c := x.channel;
    LogNil(q, acc, done, s, log);
    EarlyState(q, acc, done, s, log, c);
    hide Inv;
    StartStuck(q, s, c, Ts(q, c, x.tup));
    hide Aligned, Start;
    FirstStuckStep(q, s, Other(c), x);
  }

  lemma FirstStuckStep<X, K, O>(q: Query<X, K, O>, s: State<X, K>, e: nat, x: Input<X>)
    requires x.channel < 2 && Sized(s) && q.ts(x.channel, x.tup).Some?
    requires s.maxTs[x.channel].None? && Stuck(q, Start(q, s, x.channel, Ts(q, x.channel, x.tup)), e)
    ensures var r := Step(q, s, x);
            Stuck(q, r.s, e) && r.log == [] && r.s.curr == Start(q, s, x.channel, Ts(q, x.channel, x.tup)).curr
  {
    hide Start;
    StuckAdmit(q, s, e, x);
    hide Admit;
    var a := Admit(q, s, x).value;
    AdvanceStuck(q, a, e);
    hide Advance, Drain;
    StuckDrain(q, a, e, 0);
    StuckDrain(q, Drain(q, a, 0).s, e, 1);
  }

  lemma StuckAdmit<X, K, O>(q: Query<X, K, O>, s: State<X, K>, e: nat, x: Input<X>)
    requires x.channel < 2 && Sized(s) && q.ts(x.channel, x.tup).Some?
    requires s.maxTs[x.channel].None? && Stuck(q, Start(q, s, x.channel, Ts(q, x.channel, x.tup)), e)
    ensures Admit(q, s, x).Some? && Stuck(q, Admit(q, s, x).value, e)
    ensures Admit(q, s, x).value.curr == Start(q, s, x.channel, Ts(q, x.channel, x.tup)).curr
  {
    hide CompareQts, T.Valid;
  }

  /** Before both channels are known nothing has been consumed. */
  lemma EarlyState<X, K, O>(q: Query<X, K, O>, acc: seq<seq<X>>, done: seq<seq<X>>, s: State<X, K>, log: seq<Emit<O>>,
      c: nat)
    requires c < 2 && Inv(q, acc, done, s, log) && !s.valid && s.maxTs[c].None? && s.queue[Other(c)] != []
    ensures var e := Other(c);
            && s.queue[c] == [] && T.Valid(s.tbl[e], q.hash) && s.tbl[e].used == []
            && s.maxTs[e].Some? && Ts(q, e, s.queue[e][0]) <= s.maxTs[e].value
  {
    var e := Other(c);
    DoneNil(q, e, acc, done, s, log);
    FrontBelow(q, e, acc, done, s, log);
    hide ChanOk, LogOk;
    ChanNone(q, c, acc[c], done[c], s.queue[c], s.curr, s.valid);
    TblNil(q, e, s.curr, s.tbl[e], s.tbl[c]);
  }

  lemma TblNil<X, K, O>(q: Query<X, K, O>, c: nat, curr: int, mine: T.Table<K, Stored<X>>, other: T.Table<K, Stored<X>>)
    requires TblOk(q, c, curr, [], mine, other)
    ensures T.Valid(mine, q.hash) && mine.used == []
  {
    assert |multiset(Tups(T.Items(mine)))| == |multiset(AtTs(q, c, curr, []))|;
    ItemsNil(mine, q.hash);
  }

  lemma StartStuck<X, K, O>(q: Query<X, K, O>, s: State<X, K>, c: nat, t: int)
    requires c < 2 && Sized(s) && !Aligned(q, s, c, t) && s.queue[c] == []
    requires var e := Other(c);
             T.Valid(s.tbl[e], q.hash) && s.tbl[e].used == [] && Ts(q, e, s.queue[e][0]) <= s.maxTs[e].value
    ensures Stuck(q, Start(q, s, c, t), Other(c))
  {
    hide T.Valid;
  }

  lemma AdvanceStuck<X, K, O>(q: Query<X, K, O>, s: State<X, K>, e: nat)
    requires Stuck(q, s, e)
    ensures Advance(q, s) == Result(s, [])
  {
    hide T.Valid, PadSide, T.Cleared;
  }

  lemma ItemsNil<X, K>(t: T.Table<K, Stored<X>>, hash: K -> nat)
    requires T.Valid(t, hash) && T.Items(t) == []
    ensures t.used == []
  {
    if t.used != [] {
      ItemsFront(t, hash);
    }
  }

  lemma ItemsFront<X, K>(t: T.Table<K, Stored<X>>, hash: K -> nat)
    requires T.Valid(t, hash) && t.used != []
    ensures T.Items(t) != []
  {
    assert t.used[0] in t.used;
  }

  lemma FrontBelow<X, K, O>(q: Query<X, K, O>, e: nat, acc: seq<seq<X>>, done: seq<seq<X>>, s: State<X, K>,
      log: seq<Emit<O>>)
    requires e < 2 && Inv(q, acc, done, s, log) && s.queue[e] != []
    ensures s.maxTs[e].Some? && Ts(q, e, s.queue[e][0]) <= s.maxTs[e].value
  {
    hide TblOk, LogOk;
    assert s.queue[e][0] == acc[e][|done[e]|];
  }

  /** After a misaligned start the operator never emits anything and curr_ts never moves, whatever arrives. */
  lemma MisalignedForever<X, K, O>(q: Query<X, K, O>, ins: seq<Input<X>>, x: Input<X>, more: seq<Input<X>>)
    requires AlignedRun(q, ins) && !AlignedInput(q, Run(q, ins).s, x)
    ensures var r := Run(q, ins + [x] + more);
            && x.channel < 2 && r.log == [] && r.s.valid && !QueuesAhead(q, r.s)
            && r.s.curr == Start(q, Run(q, ins).s, x.channel, Ts(q, x.channel, x.tup)).curr
  {
    var done := RunInv(q, ins);
    hide Inv, Step, Start, AlignedInput, AlignedRun, AcceptedBoth, Stuck, QueuesAhead;
    MisalignedChannel(q, Run(q, ins).s, x);
    var r := Run(q, ins);
    MisalignedStart(q, AcceptedBoth(q, ins), done, r.s, r.log, x);
    assert (ins + [x])[..|ins|] == ins;
    StuckRun(q, ins + [x], more, Other(x.channel));
    StuckBehind(q, Run(q, ins + [x] + more).s, Other(x.channel));
  }

  lemma MisalignedChannel<X, K, O>(q: Query<X, K, O>, s: State<X, K>, x: Input<X>)
    requires Sized(s) && !AlignedInput(q, s, x)
    ensures x.channel < 2
  {
  }

  lemma StuckBehind<X, K, O>(q: Query<X, K, O>, s: State<X, K>, e: nat)
    requires Stuck(q, s, e)
    ensures Sized(s) && s.valid && !QueuesAhead(q, s)
  {
  }

  /** The aligned start is exactly what the operator needs: the queues stay ahead of curr_ts if and only if it held. */
  lemma {:induction false} AlignmentIsExact<X, K, O>(q: Query<X, K, O>, ins: seq<Input<X>>)
    ensures AlignedRun(q, ins) <==> QueuesAhead(q, Run(q, ins).s)
  {
    if AlignedRun(q, ins) {
      hide Run, AlignedRun, QueuesAhead;
      RunKeepsOrder(q, ins, 0);
    } else {
      hide Run, QueuesAhead, AlignedInput;
      var n := FirstMisaligned(q, ins);
      assert ins[..n] + [ins[n]] + ins[n + 1..] == ins;
      MisalignedForever(q, ins[..n], ins[n], ins[n + 1..]);
    }
  }

  lemma {:induction false} FirstMisaligned<X, K, O>(q: Query<X, K, O>, ins: seq<Input<X>>) returns (n: nat)
    requires !AlignedRun(q, ins)
    ensures n < |ins| && AlignedRun(q, ins[..n]) && !AlignedInput(q, Run(q, ins[..n]).s, ins[n])
  {
    hide Run, AlignedInput;
    var pre := ins[..|ins| - 1];
    if AlignedRun(q, pre) {
      n := |ins| - 1;
    } else {
      n := FirstMisaligned(q, pre);
      assert pre[..n] == ins[..n] && pre[n] == ins[n];
    }
  }

  // ------------------------------------------------ a misaligned example

  /** Left outer join of integers on their last digit; the timestamp is the number of tens. */
  function Digits(): Query<int, int, int> {
    Query((c, x) => Some(x / 10), (c, x) => false, (c, x) => true, (c, x) => Some(x % 10),
          (l: Option<int>, r: Option<int>) => if l.Some? then Some(l.value) else None, x => 1,
          k => if k < 0 then 0 else k, JOIN_LEFT_OUTER)
  }

  const JOIN_LEFT_OUTER: nat := 1

  /** Left tuples of timestamps 1 and 2 arrive before the first right tuple, of timestamp 3. */
  const LATE_RIGHT: seq<Input<int>> := [Input(0, 10), Input(0, 20), Input(1, 30)]

  /**
   * The second channel may start too late for the operator: the padded output owed for timestamp 1 is never emitted.
   */
  lemma LateStartLosesOutput()
    ensures !AlignedRun(Digits(), LATE_RIGHT) && Run(Digits(), LATE_RIGHT).s.curr == 2
    ensures At(Run(Digits(), LATE_RIGHT).log, 1) == multiset{}
    ensures AtTs(Digits(), 0, 1, Accepted(Digits(), LATE_RIGHT, 0)) == [10]
    ensures Relational(Digits(), [10], []) == multiset{10}
  {
    var q, i2 := Digits(), LATE_RIGHT[..2];
    assert LATE_RIGHT == i2 + [Input(1, 30)] + [];
    hide *;
    LateReference();
    LateMisaligned(q, i2);
    MisalignedForever(q, i2, Input(1, 30), []);
    AtNil<int>(1);
    AlignmentIsExact(q, LATE_RIGHT);
  }

  lemma LateMisaligned(q: Query<int, int, int>, ins: seq<Input<int>>)
    requires q == Digits() && ins == LATE_RIGHT[..2]
    ensures AlignedRun(q, ins) && !AlignedInput(q, Run(q, ins).s, Input(1, 30))
    ensures Start(q, Run(q, ins).s, 1, Ts(q, 1, 30)).curr == 2
  {
    OnlyLeft();
    hide *;
    LateReference();
    OneChannelAligned(q, ins);
    LateKnown(q, ins);
    LateState(Run(q, ins).s);
  }

  lemma OnlyLeft()
    ensures |LATE_RIGHT[..2]| == 2 && LATE_RIGHT[..2][0].channel == 0 && LATE_RIGHT[..2][1].channel == 0
  {
  }

  /** The state while only the left channel is known. */
  lemma LateKnown(q: Query<int, int, int>, ins: seq<Input<int>>)
    requires AlignedRun(q, ins) && MaxTs(q, ins, 0) == Some(2) && MaxTs(q, ins, 1) == None
    requires Accepted(q, ins, 0) == [10, 20] && Accepted(q, ins, 1) == []
    ensures var s := Run(q, ins).s; Sized(s) && s.queue == [[10, 20], []] && s.maxTs == [Some(2), None]
  {
    hide *;
    RunMaxTs(q, ins);
    RunValid(q, ins);
    EarlyQueue(q, ins);
  }

  lemma AtNil<O>(t: int)
    ensures At<O>([], t) == multiset{}
  {
  }

  lemma LateState(s: State<int, int>)
    requires Sized(s) && s.queue == [[10, 20], []] && s.maxTs == [Some(2), None]
    ensures !AlignedInput(Digits(), s, Input(1, 30)) && Start(Digits(), s, 1, Ts(Digits(), 1, 30)).curr == 2
  {
  }

  /** While only the left channel has delivered, the start is still aligned. */
  lemma {:induction false} OneChannelAligned<X, K, O>(q: Query<X, K, O>, ins: seq<Input<X>>)
    requires forall i :: 0 <= i < |ins| ==> ins[i].channel == 0
    ensures AlignedRun(q, ins) && MaxTs(q, ins, 1) == None
  {
    if ins != [] {
      hide Run;
      OneChannelAligned(q, ins[..|ins| - 1]);
      RunMaxTs(q, ins[..|ins| - 1]);
    }
  }

  /** Before both channels are known, every accepted tuple is still queued. */
  lemma EarlyQueue<X, K, O>(q: Query<X, K, O>, ins: seq<Input<X>>)
    requires AlignedRun(q, ins) && !Run(q, ins).s.valid
    ensures Run(q, ins).s.queue == [Accepted(q, ins, 0), Accepted(q, ins, 1)]
  {
    hide *;
    var done := RunInv(q, ins);
    InvEarlyQueue(q, AcceptedBoth(q, ins), done, Run(q, ins).s, Run(q, ins).log);
    BothIs(q, ins);
  }

  lemma InvEarlyQueue<X, K, O>(q: Query<X, K, O>, acc: seq<seq<X>>, done: seq<seq<X>>, s: State<X, K>,
      log: seq<Emit<O>>)
    requires Inv(q, acc, done, s, log) && !s.valid
    ensures s.queue == acc
  {
    DoneNil(q, 0, acc, done, s, log);
    DoneNil(q, 1, acc, done, s, log);
    hide TblOk, LogOk;
    assert [] + s.queue[0] == s.queue[0] && [] + s.queue[1] == s.queue[1];
  }

  lemma LateReference()
    ensures Accepted(Digits(), LATE_RIGHT[..2], 0) == [10, 20] && Accepted(Digits(), LATE_RIGHT[..2], 1) == []
    ensures MaxTs(Digits(), LATE_RIGHT[..2], 0) == Some(2)
    ensures AtTs(Digits(), 0, 1, Accepted(Digits(), LATE_RIGHT, 0)) == [10]
    ensures Relational(Digits(), [10], []) == multiset{10}
  {
    var q, i1, i2 := Digits(), LATE_RIGHT[..1], LATE_RIGHT[..2];
    assert i1 == [] + [Input(0, 10)] && i2 == i1 + [Input(0, 20)] && LATE_RIGHT == i2 + [Input(1, 30)];
    assert MaxTs(q, [], 0) == None && MaxTs(q, i1, 0) == Some(1) && MaxTs(q, i2, 0) == Some(2) by {
      hide Accepted;
      assert i1[..0] == [] && i2[..1] == i1;
    }
    hide *;
    LateAccepted(i1, i2, 0);
    LateAccepted(i1, i2, 1);
    AcceptedSnoc(q, i2, Input(1, 30), 0);
    assert [10, 20] + [] == [10, 20];
    LateAt();
    LateRelational();
  }

  lemma LateAt()
    ensures AtTs(Digits(), 0, 1, [10, 20]) == [10]
  {
    AtTsSnoc(Digits(), 0, 1, [10], 20);
    AtTsSnoc(Digits(), 0, 1, [], 10);
    assert [10] + [20] == [10, 20] && [] + [10] == [10];
  }

  lemma LateAccepted(i1: seq<Input<int>>, i2: seq<Input<int>>, c: nat)
    requires c < 2 && i1 == [] + [Input(0, 10)] && i2 == i1 + [Input(0, 20)]
    requires MaxTs(Digits(), [], 0) == None && MaxTs(Digits(), i1, 0) == Some(1)
    ensures Accepted(Digits(), i2, c) == if c == 0 then [10, 20] else []
  {
    hide MaxTs;
    AcceptedSnoc(Digits(), [], Input(0, 10), c);
    AcceptedSnoc(Digits(), i1, Input(0, 20), c);
    assert Accepted(Digits(), [], c) == [];
    hide Accepted;
    assert [10] + [20] == [10, 20] && [] + [10] == [10];
  }

  /** A lone left tuple of an outer join is padded. */
  lemma LonePad<X, K, O>(q: Query<X, K, O>, x: X)
    requires IsOuter(q, 0) && !IsOuter(q, 1) && MakePadded(q, 0, x).Some?
    ensures Relational(q, [x], []) == multiset{MakePadded(q, 0, x).value}
  {
    hide Sum, Joins;
    assert Matches(q, 0, [])(x) == multiset{} by { SumZero(One(q, 0, x), []); }
    assert Pad(q, 0, [])(x) == multiset{MakePadded(q, 0, x).value} by { assert !Joined(q, 0, x, []); }
    hide Matches, Pad;
    assert [x] + [] == [x];
    SumCons(Matches(q, 0, []), x, []);
    SumCons(Pad(q, 0, []), x, []);
    SumZero(Matches(q, 0, []), []);
    SumZero(Pad(q, 0, []), []);
  }

  lemma LateRelational()
    ensures Relational(Digits(), [10], []) == multiset{10}
  {
    hide Relational;
    LonePad(Digits(), 10);
  }
}
