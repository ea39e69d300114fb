/**
 * The windowed equi-join operator as a transition system, and the plain relational
 * join it has to agree with, timestamp by timestamp.
 */
module Join {
  import opened Options
  import opened MultisetSum
  import T = Table

  /**
   * The generated functor.  Channel 0 is the left input, channel 1 the right one.
   * `make` builds an output tuple; a side that is None is the empty tuple of an outer join.
   */
  datatype Query<!X, !K, O> = Query(
    ts: (nat, X) -> Option<int>,
    isTemp: (nat, X) -> bool,
    prefilter: (nat, X) -> bool,
    key: (nat, X) -> Option<K>,
    make: (Option<X>, Option<X>) -> Option<O>,
    size: X -> nat,
    hash: K -> nat,
    joinType: nat)

  datatype Input<X> = Input(channel: nat, tup: X)

  function Ts<X, K, O>(q: Query<X, K, O>, c: nat, x: X): int {
    if q.ts(c, x).Some? then q.ts(c, x).value else 0
  }

  // ------------------------------------------------ the relational reference

  /** What the operator makes of tuple x of channel c and tuple y of the other channel. */
  function Make<X, K, O>(q: Query<X, K, O>, c: nat, x: X, y: X): Option<O> {
    if c == 0 then q.make(Some(x), Some(y)) else q.make(Some(y), Some(x))
  }

  function MakePadded<X, K, O>(q: Query<X, K, O>, c: nat, x: X): Option<O> {
    if c == 0 then q.make(Some(x), None) else q.make(None, Some(x))
  }

  function Other(c: nat): (o: nat)
    ensures o < 2 && o != c
  {
    if c == 0 then 1 else 0
  }

  /** Equal keys, and an output of the left tuple and the right one can be created. */
  predicate Joins<X, K(==), O>(q: Query<X, K, O>, c: nat, x: X, y: X) {
    if c == 0 then q.key(0, x).Some? && q.key(0, x) == q.key(1, y) && q.make(Some(x), Some(y)).Some?
    else q.key(c, x).Some? && q.key(c, x) == q.key(0, y) && q.make(Some(y), Some(x)).Some?
  }

  ghost predicate Joined<X, K, O>(q: Query<X, K, O>, c: nat, x: X, ys: seq<X>) {
    exists i :: 0 <= i < |ys| && Joins(q, c, x, ys[i])
  }

  ghost function One<X, K, O>(q: Query<X, K, O>, c: nat, x: X): X -> multiset<O> {
    y => if !Joins(q, c, x, y) then multiset{}
         else if c == 0 then multiset{q.make(Some(x), Some(y)).value}
         else multiset{q.make(Some(y), Some(x)).value}
  }

  /** All outputs that x of channel c forms with the tuples ys of the other channel. */
  ghost function Matches<X, K, O>(q: Query<X, K, O>, c: nat, ys: seq<X>): X -> multiset<O> {
    x => Sum(One(q, c, x), ys)
  }

  /** The inner join: every joining pair, once each. */
  ghost function Pairs<X, K, O>(q: Query<X, K, O>, ls: seq<X>, rs: seq<X>): multiset<O> {
    Sum(Matches(q, 0, rs), ls)
  }

  ghost function Pad<X, K, O>(q: Query<X, K, O>, c: nat, ys: seq<X>): X -> multiset<O> {
    x => var o := if c == 0 then q.make(Some(x), None) else q.make(None, Some(x));
         if !Joined(q, c, x, ys) && o.Some? then multiset{o.value} else multiset{}
  }

  predicate IsOuter<X, K, O>(q: Query<X, K, O>, c: nat) {
    (q.joinType / (c + 1)) % 2 == 1
  }

  /** Padded outputs of one side: the tuples of an outer side that join with nothing. */
  ghost function Pads<X, K, O>(q: Query<X, K, O>, c: nat, xs: seq<X>, ys: seq<X>): multiset<O> {
    var outer := if c == 0 then q.joinType % 2 == 1 else (q.joinType / 2) % 2 == 1;
    if outer then Sum(Pad(q, c, ys), xs) else multiset{}
  }

  /** The relational (inner or outer) join of two sequences of keyed tuples. */
  ghost function Relational<X, K, O>(q: Query<X, K, O>, ls: seq<X>, rs: seq<X>): multiset<O> {
    Pairs(q, ls, rs) + Pads(q, 0, ls, rs) + Pads(q, 1, rs, ls)
  }

  /** Greatest timestamp received so far on a channel. */
  function MaxTs<X, K, O>(q: Query<X, K, O>, ins: seq<Input<X>>, c: nat): Option<int> {
    if ins == [] then None else
    var pre := MaxTs(q, ins[..|ins| - 1], c);
    var x := ins[|ins| - 1];
    if x.channel == c && q.ts(c, x.tup).Some? && (pre.None? || pre.value < Ts(q, c, x.tup))
    then q.ts(c, x.tup) else pre
  }

  /** A tuple takes part in the join when it is loadable, in order on its channel, regular, and passes the prefilter. */
  predicate Accepts<X, K, O>(q: Query<X, K, O>, max: Option<int>, c: nat, x: X) {
    && q.ts(c, x).Some?
    && (max.Some? ==> max.value <= Ts(q, c, x))
    && !q.isTemp(c, x)
    && q.prefilter(c, x)
  }

  function Accepted<X, K, O>(q: Query<X, K, O>, ins: seq<Input<X>>, c: nat): seq<X> {
    if ins == [] then [] else
    var pre := ins[..|ins| - 1];
    var x := ins[|ins| - 1];
    Accepted(q, pre, c)
      + (if x.channel == c && Accepts(q, MaxTs(q, pre, c), c, x.tup) then [x.tup] else [])
  }

  /** The tuples of timestamp t whose key could be created. */
  function AtTs<X, K, O>(q: Query<X, K, O>, c: nat, t: int, xs: seq<X>): seq<X> {
    if xs == [] then [] else
    var x := xs[|xs| - 1];
    AtTs(q, c, t, xs[..|xs| - 1]) + (if Ts(q, c, x) == t && q.key(c, x).Some? then [x] else [])
  }

  // ------------------------------------------------ the operator's transitions

  datatype Stored<+X> = Stored(tup: X, touched: bool)

  datatype State<X, K> = State(
    queue: seq<seq<X>>,
    maxTs: seq<Option<int>>,
    curr: int,
    valid: bool,
    tbl: seq<T.Table<K, Stored<X>>>,
    mem: int)

  predicate Sized<X, K>(s: State<X, K>) {
    |s.queue| == 2 && |s.maxTs| == 2 && |s.tbl| == 2 && |s.tbl[0].chains| > 0 && |s.tbl[1].chains| > 0
  }

  function Init<X, K>(): State<X, K> {
    State([[], []], [None, None], 0, false, [T.Empty(T.BUCKETS), T.Empty(T.BUCKETS)], 0)
  }

  /** An output together with the window timestamp during which it was emitted. */
  datatype Emit<+O> = Emit(ts: int, out: O)

  datatype Result<X, K, O> = Result(s: State<X, K>, log: seq<Emit<O>>)

  function Tag<O>(t: int, outs: seq<O>): seq<Emit<O>> {
    seq(|outs|, i requires 0 <= i < |outs| => Emit(t, outs[i]))
  }

  function Cmp(a: int, b: int): int {
    if a < b then -1 else if a == b then 0 else 1
  }

  /** Lower bound on what channel c can still deliver: its queue front, or its maximum when the queue is empty. */
  function Head<X, K, O>(q: Query<X, K, O>, s: State<X, K>, c: nat): int
    requires c < 2 && Sized(s) && s.maxTs[c].Some?
  {
    if s.queue[c] == [] then s.maxTs[c].value else Ts(q, c, s.queue[c][0])
  }

  function CompareQtsToHashTs<X, K, O>(q: Query<X, K, O>, s: State<X, K>, c: nat): int
    requires c < 2 && Sized(s)
  {
    if s.maxTs[c].None? then -1 else Cmp(Head(q, s, c), s.curr)
  }

  function CompareQts<X, K, O>(q: Query<X, K, O>, s: State<X, K>): int
    requires Sized(s)
  {
    if s.maxTs[0].None? then -1
    else if s.maxTs[1].None? then 1
    else Cmp(Head(q, s, 0), Head(q, s, 1))
  }

  /** First loadable tuple of a channel: set its maximum and, when both channels are known, the current timestamp. */
  function Start<X, K, O>(q: Query<X, K, O>, s: State<X, K>, c: nat, t: int): (s': State<X, K>)
    requires c < 2 && Sized(s)
    ensures Sized(s')
  {
    if s.maxTs[c].Some? then s else
    var s1 := s.(maxTs := s.maxTs[c := Some(t)]);
    if s1.maxTs[Other(c)].None? then s1
    else s1.(curr := s1.maxTs[if CompareQts(q, s1) <= 0 then 0 else 1].value, valid := true)
  }

  const WORD: int := 0x1_0000_0000

  function Append<X, K, O>(q: Query<X, K, O>, s: State<X, K>, c: nat, x: X): (s': State<X, K>)
    requires c < 2 && Sized(s)
    ensures Sized(s')
  {
    s.(queue := s.queue[c := s.queue[c] + [x]], mem := (s.mem + q.size(x)) % WORD)
  }

  /** Outputs formed by probing an overflow chain with tuple x, in chain order. */
  function Probe<X, K(==), O>(q: Query<X, K, O>, c: nat, x: X, k: K, chain: seq<T.Item<K, Stored<X>>>): seq<O> {
    if chain == [] then [] else
    var m := Make(q, c, x, chain[0].val.tup);
    (if chain[0].key == k && m.Some? then [m.value] else []) + Probe(q, c, x, k, chain[1..])
  }

  /** The chain after the probe: the keys that joined are touched. */
  function Touch<X, K(==), O>(q: Query<X, K, O>, c: nat, x: X, k: K,
      chain: seq<T.Item<K, Stored<X>>>): (r: seq<T.Item<K, Stored<X>>>)
  {
    seq(|chain|, i requires 0 <= i < |chain| =>
      if chain[i].key == k && Make(q, c, x, chain[i].val.tup).Some?
      then T.Item(chain[i].key, Stored(chain[i].val.tup, true)) else chain[i])
  }

  /** Take the front tuple of queue c through the join. */
  function DrainOne<X, K(==), O>(q: Query<X, K, O>, s: State<X, K>, c: nat): (r: Result<X, K, O>)
    requires c < 2 && Sized(s) && s.queue[c] != []
    ensures Sized(r.s) && |r.s.queue[c]| == |s.queue[c]| - 1
  {
    var x := s.queue[c][0];
    var s1 := s.(queue := s.queue[c := s.queue[c][1..]], mem := (s.mem - q.size(x)) % WORD);
    if q.key(c, x).None? then Result(s1, []) else
    var k := q.key(c, x).value;
    var other := s.tbl[Other(c)];
    var b := T.Bucket(other, q.hash, k);
    var outs := Probe(q, c, x, k, other.chains[b]);
    var mine := T.Insert(s.tbl[c], q.hash, k, Stored(x, outs != []));
    var touched := other.(chains := other.chains[b := Touch(q, c, x, k, other.chains[b])]);
    Result(s1.(tbl := s1.tbl[c := mine][Other(c) := touched]), Tag(s.curr, outs))
  }

  /** The inner loop of process_join for one channel. */
  function Drain<X, K(==), O>(q: Query<X, K, O>, s: State<X, K>, c: nat): (r: Result<X, K, O>)
    requires c < 2 && Sized(s)
    ensures Sized(r.s)
    decreases |s.queue[c]|
  {
    if s.valid && s.queue[c] != [] && Ts(q, c, s.queue[c][0]) == s.curr then
      var r1 := DrainOne(q, s, c);
      var r2 := Drain(q, r1.s, c);
      Result(r2.s, r1.log + r2.log)
    else Result(s, [])
  }

  function ProcessJoin<X, K(==), O>(q: Query<X, K, O>, s: State<X, K>): (r: Result<X, K, O>)
    requires Sized(s)
    ensures Sized(r.s)
  {
    var r0 := Drain(q, s, 0);
    var r1 := Drain(q, r0.s, 1);
    Result(r1.s, r0.log + r1.log)
  }

  /** Padded outputs for the untouched items of a table, in iteration order. */
  function PadItems<X, K, O>(q: Query<X, K, O>, c: nat, items: seq<T.Item<K, Stored<X>>>): seq<O> {
    if items == [] then [] else
    var m := MakePadded(q, c, items[0].val.tup);
    (if !items[0].val.touched && m.Some? then [m.value] else []) + PadItems(q, c, items[1..])
  }

  function PadSide<X, K, O>(q: Query<X, K, O>, s: State<X, K>, c: nat): seq<O>
    requires c < 2 && Sized(s)
  {
    if IsOuter(q, c) then PadItems(q, c, T.Items(s.tbl[c])) else []
  }

  /** process_outer_join and the move to the next timestamp. */
  function Advance<X, K, O>(q: Query<X, K, O>, s: State<X, K>): (r: Result<X, K, O>)
    requires Sized(s)
    ensures Sized(r.s)
  {
    if CompareQtsToHashTs(q, s, 0) > 0 && CompareQtsToHashTs(q, s, 1) > 0 then
      var minq := if CompareQts(q, s) > 0 then 1 else 0;
      Result(s.(tbl := [T.Cleared(s.tbl[0]), T.Cleared(s.tbl[1])], curr := Head(q, s, minq)),
             Tag(s.curr, PadSide(q, s, 0) + PadSide(q, s, 1)))
    else Result(s, [])
  }

  /**
   * Admission: everything accept_tuple does up to the point where the queues may be consumed; None is a rejected
   * tuple.
   */
  function Admit<X, K, O>(q: Query<X, K, O>, s: State<X, K>, x: Input<X>): (r: Option<State<X, K>>)
    requires Sized(s)
    ensures r.Some? ==> Sized(r.value)
  {
    if x.channel > 1 || q.ts(x.channel, x.tup).None? then None else
    var c := x.channel;
    var t := Ts(q, c, x.tup);
    var s1 := Start(q, s, c, t);
    if t < s1.maxTs[c].value then None else
    var s2 := s1.(maxTs := s1.maxTs[c := Some(t)]);
    Some(if !q.isTemp(c, x.tup) && q.prefilter(c, x.tup) then Append(q, s2, c, x.tup) else s2)
  }

  function Step<X, K(==), O>(q: Query<X, K, O>, s: State<X, K>, x: Input<X>): (r: Result<X, K, O>)
    requires Sized(s)
    ensures Sized(r.s)
  {
    var a := Admit(q, s, x);
    if a.None? then Result(s, []) else
    var r1 := Advance(q, a.value);
    var r2 := ProcessJoin(q, r1.s);
    Result(r2.s, r1.log + r2.log)
  }

  function Run<X, K(==), O>(q: Query<X, K, O>, ins: seq<Input<X>>): (r: Result<X, K, O>)
    ensures Sized(r.s)
  {
    if ins == [] then Result(Init(), []) else
    var r1 := Run(q, ins[..|ins| - 1]);
    var r2 := Step(q, r1.s, ins[|ins| - 1]);
    Result(r2.s, r1.log + r2.log)
  }
}
