/** Every run of the join operator agrees with the relational join, timestamp by timestamp. */
module JoinProofs {
  import opened Options
  import opened MultisetSum
  import opened Join
  import T = Table

  // ------------------------------------------------ outputs per timestamp

  ghost function OutAt<O>(t: int): Emit<O> -> multiset<O> {
    (e: Emit<O>) => if e.ts == t then multiset{e.out} else multiset{}
  }

  /** The outputs of a log that were emitted while the window timestamp was t. */
  ghost function At<O>(log: seq<Emit<O>>, t: int): multiset<O> {
    Sum(OutAt(t), log)
  }

  lemma {:induction false} AtTag<O>(u: int, outs: seq<O>, t: int)
    ensures At(Tag(u, outs), t) == if t == u then multiset(outs) else multiset{}
  {
    if outs != [] {
      var n := |outs| - 1;
      AtTag(u, outs[..n], t);
      assert Tag(u, outs) == Tag(u, outs[..n]) + [Emit(u, outs[n])];
      SumSnoc(OutAt(t), Tag(u, outs[..n]), Emit(u, outs[n]));
      assert outs == outs[..n] + [outs[n]];
    }
  }

  // ------------------------------------------------ the tables

  ghost function Tups<X, K>(items: seq<T.Item<K, Stored<X>>>): seq<X> {
    seq(|items|, i requires 0 <= i < |items| => items[i].val.tup)
  }

  ghost predicate Keyed<X, K, O>(q: Query<X, K, O>, c: nat, items: seq<T.Item<K, Stored<X>>>) {
    forall i :: 0 <= i < |items| ==> q.key(c, items[i].val.tup) == Some(items[i].key)
  }

  lemma {:induction false} ProbeConcat<X, K, O>(q: Query<X, K, O>, c: nat, x: X, k: K,
      a: seq<T.Item<K, Stored<X>>>, b: seq<T.Item<K, Stored<X>>>)
    ensures Probe(q, c, x, k, a + b) == Probe(q, c, x, k, a) + Probe(q, c, x, k, b)
  {
    if a == [] {
      assert a + b == b;
    } else {
      assert (a + b)[1..] == a[1..] + b;
      ProbeConcat(q, c, x, k, a[1..], b);
    }
  }

  lemma {:induction false} ProbeNone<X, K, O>(q: Query<X, K, O>, c: nat, x: X, k: K, items: seq<T.Item<K, Stored<X>>>)
    requires forall i :: 0 <= i < |items| ==> items[i].key != k
    ensures Probe(q, c, x, k, items) == []
    ensures Touch(q, c, x, k, items) == items
  {
    if items != [] {
      ProbeNone(q, c, x, k, items[1..]);
    }
  }

  lemma TouchConcat<X, K, O>(q: Query<X, K, O>, c: nat, x: X, k: K,
      a: seq<T.Item<K, Stored<X>>>, b: seq<T.Item<K, Stored<X>>>)
    ensures Touch(q, c, x, k, a + b) == Touch(q, c, x, k, a) + Touch(q, c, x, k, b)
  {
  }

  /** Probing one bucket finds exactly what probing every stored item would, in the same order. */
  lemma {:induction false} ProbeFlat<X, K, O>(q: Query<X, K, O>, c: nat, x: X, k: K,
      chains: seq<seq<T.Item<K, Stored<X>>>>, used: seq<nat>, b: nat)
    requires b < |chains| && T.NoDup(used)
    requires forall i :: 0 <= i < |used| ==> used[i] < |chains|
    requires forall d: nat, i: nat :: d < |chains| && d != b && i < |chains[d]| ==> chains[d][i].key != k
    ensures Probe(q, c, x, k, T.Flat(chains, used)) == if b in used then Probe(q, c, x, k, chains[b]) else []
  {
    if used != [] {
      var u := used[0];
      var rest := T.Flat(chains, used[1..]);
      ProbeFlat(q, c, x, k, chains, used[1..], b);
      assert T.Flat(chains, used) == chains[u] + rest;
      assert u !in used[1..];
      hide Probe, T.Flat;
      ProbeConcat(q, c, x, k, chains[u], rest);
      if u != b {
        ProbeNone(q, c, x, k, chains[u]);
      }
      assert b in used <==> b == u || b in used[1..];
    }
  }

  lemma {:induction false} TouchFlat<X, K, O>(q: Query<X, K, O>, c: nat, x: X, k: K,
      chains: seq<seq<T.Item<K, Stored<X>>>>, used: seq<nat>, b: nat)
    requires b < |chains|
    requires forall i :: 0 <= i < |used| ==> used[i] < |chains|
    requires forall d: nat, i: nat :: d < |chains| && d != b && i < |chains[d]| ==> chains[d][i].key != k
    ensures T.Flat(chains[b := Touch(q, c, x, k, chains[b])], used) == Touch(q, c, x, k, T.Flat(chains, used))
  {
    if used != [] {
      var u := used[0];
      var rest := T.Flat(chains, used[1..]);
      var d := chains[b := Touch(q, c, x, k, chains[b])];
      TouchFlat(q, c, x, k, chains, used[1..], b);
      assert T.Flat(chains, used) == chains[u] + rest;
      assert T.Flat(d, used) == d[u] + T.Flat(d, used[1..]);
      hide Touch, T.Flat;
      TouchConcat(q, c, x, k, chains[u], rest);
      if u != b {
        ProbeNone(q, c, x, k, chains[u]);
      }
    }
  }

  lemma ProbeTable<X, K, O>(q: Query<X, K, O>, c: nat, x: X, k: K, t: T.Table<K, Stored<X>>)
    requires T.Valid(t, q.hash)
    ensures var b := T.Bucket(t, q.hash, k);
            var t' := t.(chains := t.chains[b := Touch(q, c, x, k, t.chains[b])]);
            && Probe(q, c, x, k, t.chains[b]) == Probe(q, c, x, k, T.Items(t))
            && T.Valid(t', q.hash)
            && T.Items(t') == Touch(q, c, x, k, T.Items(t))
  {
    var b := T.Bucket(t, q.hash, k);
    var t' := t.(chains := t.chains[b := Touch(q, c, x, k, t.chains[b])]);
    ProbeFlat(q, c, x, k, t.chains, t.used, b);
    TouchFlat(q, c, x, k, t.chains, t.used, b);
    forall d: nat | d < |t'.chains|
      ensures t'.chains[d] != [] <==> d in t'.used
    {
      assert |t'.chains[d]| == |t.chains[d]|;
    }
    forall d: nat, i: nat | d < |t'.chains| && i < |t'.chains[d]|
      ensures T.Bucket(t', q.hash, t'.chains[d][i].key) == d
    {
      assert t'.chains[d][i].key == t.chains[d][i].key;
    }
  }

  /** The probe emits the matches of the reference. */
  lemma {:induction false} ProbeMatches<X, K, O>(q: Query<X, K, O>, c: nat, x: X, k: K,
      items: seq<T.Item<K, Stored<X>>>)
    requires q.key(c, x) == Some(k) && Keyed(q, Other(c), items)
    ensures multiset(Probe(q, c, x, k, items)) == Sum(One(q, c, x), Tups(items))
  {
    if items != [] {
      hide Sum, Make, Joins, One;
      var y, rest := items[0].val.tup, items[1..];
      ProbeMatches(q, c, x, k, rest);
      TupsCons(items);
      SumCons(One(q, c, x), y, Tups(rest));
      ProbeFront(q, c, x, k, items);
    } else {
      assert Tups(items) == [];
    }
  }

  lemma TupsCons<X, K>(items: seq<T.Item<K, Stored<X>>>)
    requires items != []
    ensures Tups(items) == [items[0].val.tup] + Tups(items[1..])
  {
  }

  lemma ProbeFront<X, K, O>(q: Query<X, K, O>, c: nat, x: X, k: K, items: seq<T.Item<K, Stored<X>>>)
    requires items != []
    requires q.key(c, x) == Some(k) && q.key(Other(c), items[0].val.tup) == Some(items[0].key)
    ensures multiset(Probe(q, c, x, k, items))
         == One(q, c, x)(items[0].val.tup) + multiset(Probe(q, c, x, k, items[1..]))
  {
  }

  /** The probe is empty exactly when nothing joins. */
  lemma {:induction false} ProbeJoined<X, K, O>(q: Query<X, K, O>, c: nat, x: X, k: K, items: seq<T.Item<K, Stored<X>>>)
    requires q.key(c, x) == Some(k) && Keyed(q, Other(c), items)
    ensures Probe(q, c, x, k, items) != [] <==> Joined(q, c, x, Tups(items))
  {
    if items != [] {
      var y, rest := items[0].val.tup, items[1..];
      ProbeJoined(q, c, x, k, rest);
      assert Tups(items) == [y] + Tups(rest);
      JoinedCons(q, c, x, y, Tups(rest));
    }
  }

  lemma JoinedCons<X, K, O>(q: Query<X, K, O>, c: nat, x: X, y: X, ys: seq<X>)
    ensures Joined(q, c, x, [y] + ys) <==> Joins(q, c, x, y) || Joined(q, c, x, ys)
  {
    var s := [y] + ys;
    if Joins(q, c, x, y) { assert Joins(q, c, x, s[0]); }
    if i :| 0 <= i < |ys| && Joins(q, c, x, ys[i]) { assert Joins(q, c, x, s[i + 1]); }
    if i :| 0 <= i < |s| && Joins(q, c, x, s[i]) && i > 0 { assert Joins(q, c, x, ys[i - 1]); }
  }

  /** Padding the untouched items is padding the tuples that joined with nothing. */
  lemma {:induction false} PadItemsSum<X, K, O>(q: Query<X, K, O>, c: nat, items: seq<T.Item<K, Stored<X>>>, ys: seq<X>)
    requires forall i :: 0 <= i < |items| ==> (items[i].val.touched <==> Joined(q, c, items[i].val.tup, ys))
    ensures multiset(PadItems(q, c, items)) == Sum(Pad(q, c, ys), Tups(items))
  {
    if items != [] {
      var y := items[0].val.tup;
      hide Joined, Sum, MakePadded;
      PadItemsSum(q, c, items[1..], ys);
      TupsCons(items);
      SumCons(Pad(q, c, ys), y, Tups(items[1..]));
    }
  }

  // ------------------------------------------------ the reference

  lemma JoinsSymmetric<X, K, O>(q: Query<X, K, O>, c: nat, x: X, y: X)
    requires c < 2
    ensures Joins(q, c, x, y) == Joins(q, Other(c), y, x)
    ensures Make(q, c, x, y) == Make(q, Other(c), y, x)
  {
  }

  /** The inner join grows by the matches of a new left or a new right tuple. */
  lemma PairsSnoc<X, K, O>(q: Query<X, K, O>, c: nat, xs: seq<X>, ys: seq<X>, x: X)
    requires c < 2
    ensures PairsOn(q, c, xs + [x], ys) == PairsOn(q, c, xs, ys) + Sum(One(q, c, x), ys)
  {
    hide Sum, Joins, Make;
    if c == 0 {
      SumSnoc(Matches(q, 0, ys), xs, x);
    } else {
      PairsAddRight(q, ys, xs, x);
    }
  }

  /** The inner join of xs on channel c with ys on the other channel. */
  ghost function PairsOn<X, K, O>(q: Query<X, K, O>, c: nat, xs: seq<X>, ys: seq<X>): multiset<O> {
    if c == 0 then Pairs(q, xs, ys) else Pairs(q, ys, xs)
  }

  lemma {:induction false} PairsAddRight<X, K, O>(q: Query<X, K, O>, ls: seq<X>, rs: seq<X>, y: X)
    ensures Pairs(q, ls, rs + [y]) == Pairs(q, ls, rs) + Sum(One(q, 1, y), ls)
  {
    hide Sum, Joins, Make;
    forall i | 0 <= i < |ls|
      ensures Matches(q, 0, rs + [y])(ls[i]) == Matches(q, 0, rs)(ls[i]) + One(q, 1, y)(ls[i])
    {
      SumSnoc(One(q, 0, ls[i]), rs, y);
      JoinsSymmetric(q, 0, ls[i], y);
    }
    SumAdd(Matches(q, 0, rs), One(q, 1, y), Matches(q, 0, rs + [y]), ls);
  }

  lemma AtTsSnoc<X, K, O>(q: Query<X, K, O>, c: nat, t: int, xs: seq<X>, x: X)
    ensures AtTs(q, c, t, xs + [x]) == AtTs(q, c, t, xs) + (if Ts(q, c, x) == t && q.key(c, x).Some? then [x] else [])
  {
    assert (xs + [x])[..|xs|] == xs;
  }

  lemma {:induction false} AtTsNone<X, K, O>(q: Query<X, K, O>, c: nat, t: int, xs: seq<X>)
    requires forall i :: 0 <= i < |xs| ==> Ts(q, c, xs[i]) != t
    ensures AtTs(q, c, t, xs) == []
  {
    if xs != [] {
      AtTsNone(q, c, t, xs[..|xs| - 1]);
    }
  }

  /** Later tuples do not change what belongs to an earlier timestamp. */
  lemma {:induction false} AtTsConcat<X, K, O>(q: Query<X, K, O>, c: nat, t: int, a: seq<X>, b: seq<X>)
    ensures AtTs(q, c, t, a + b) == AtTs(q, c, t, a) + AtTs(q, c, t, b)
  {
    hide AtTs;
    if b == [] {
      assert a + b == a;
      AtTsNone(q, c, t, b);
    } else {
      var n := |b| - 1;
      AtTsConcat(q, c, t, a, b[..n]);
      assert a + b == (a + b[..n]) + [b[n]];
      assert b == b[..n] + [b[n]];
      AtTsSnoc(q, c, t, b[..n], b[n]);
      AtTsSnoc(q, c, t, a + b[..n], b[n]);
    }
  }

  // ------------------------------------------------ the invariant

  /** Channel c: the accepted tuples are the consumed ones followed by the queue, in timestamp order around curr_ts. */
  ghost predicate ChanOk<X, K, O>(q: Query<X, K, O>, c: nat, acc: seq<X>, done: seq<X>, queue: seq<X>,
                                  max: Option<int>, curr: int, valid: bool) {
    && acc == done + queue
    && (forall i :: 0 <= i < |acc| ==> q.ts(c, acc[i]).Some? && max.Some? && Ts(q, c, acc[i]) <= max.value)
    && (forall i, j :: 0 <= i < j < |acc| ==> Ts(q, c, acc[i]) <= Ts(q, c, acc[j]))
    && (!valid ==> done == [])
    && (valid ==> max.Some? && curr <= max.value)
    && (valid ==> forall i :: 0 <= i < |done| ==> Ts(q, c, done[i]) <= curr)
    && (valid ==> forall i :: 0 <= i < |queue| ==> curr <= Ts(q, c, queue[i]))
  }

  /** A table holds exactly the consumed tuples of curr_ts, touched exactly when they joined. */
  ghost predicate TblOk<X, K, O>(q: Query<X, K, O>, c: nat, curr: int, done: seq<X>,
                                 mine: T.Table<K, Stored<X>>, other: T.Table<K, Stored<X>>) {
    && T.Valid(mine, q.hash)
    && ItemsOk(q, c, T.Items(mine), Tups(T.Items(other)))
    && multiset(Tups(T.Items(mine))) == multiset(AtTs(q, c, curr, done))
  }

  ghost predicate ItemsOk<X, K, O>(q: Query<X, K, O>, c: nat, items: seq<T.Item<K, Stored<X>>>, ys: seq<X>) {
    && Keyed(q, c, items)
    && (forall i :: 0 <= i < |items| ==> (items[i].val.touched <==> Joined(q, c, items[i].val.tup, ys)))
  }

  /** What the operator has emitted for every timestamp it has passed. */
  ghost predicate Past<X, K, O>(q: Query<X, K, O>, acc: seq<seq<X>>, curr: int, log: seq<Emit<O>>)
    requires |acc| == 2
  {
    && (forall t :: t < curr ==> At(log, t) == Relational(q, AtTs(q, 0, t, acc[0]), AtTs(q, 1, t, acc[1])))
    && (forall t :: t > curr ==> At(log, t) == multiset{})
  }

  ghost predicate LogOk<X, K, O>(q: Query<X, K, O>, acc: seq<seq<X>>, done: seq<seq<X>>, curr: int, valid: bool,
      log: seq<Emit<O>>)
    requires |acc| == 2 && |done| == 2
  {
    && (!valid ==> log == [])
    && (valid ==>
          && At(log, curr) == Pairs(q, AtTs(q, 0, curr, done[0]), AtTs(q, 1, curr, done[1]))
          && Past(q, acc, curr, log))
  }

  ghost predicate Inv<X, K, O>(q: Query<X, K, O>, acc: seq<seq<X>>, done: seq<seq<X>>, s: State<X, K>,
      log: seq<Emit<O>>) {
    && |acc| == 2 && |done| == 2 && Sized(s)
    && (s.valid <==> s.maxTs[0].Some? && s.maxTs[1].Some?)
    && ChanOk(q, 0, acc[0], done[0], s.queue[0], s.maxTs[0], s.curr, s.valid)
    && ChanOk(q, 1, acc[1], done[1], s.queue[1], s.maxTs[1], s.curr, s.valid)
    && TblOk(q, 0, s.curr, done[0], s.tbl[0], s.tbl[1])
    && TblOk(q, 1, s.curr, done[1], s.tbl[1], s.tbl[0])
    && LogOk(q, acc, done, s.curr, s.valid, log)
  }

  lemma InitInv<X, K, O>(q: Query<X, K, O>)
    ensures Inv(q, [[], []], [[], []], Init<X, K>(), [])
  {
  }

  // ------------------------------------------------ one tuple through the join

  lemma JoinedInsert<X, K, O>(q: Query<X, K, O>, c: nat, y: X, xs: seq<X>, p: nat, x: X)
    requires p <= |xs|
    ensures Joined(q, c, y, xs[..p] + [x] + xs[p..]) <==> Joined(q, c, y, xs) || Joins(q, c, y, x)
  {
    var s := xs[..p] + [x] + xs[p..];
    if Joins(q, c, y, x) { assert Joins(q, c, y, s[p]); }
    if i :| 0 <= i < |xs| && Joins(q, c, y, xs[i]) {
      assert Joins(q, c, y, s[if i < p then i else i + 1]);
    }
    if i :| 0 <= i < |s| && Joins(q, c, y, s[i]) {
      if i < p { assert Joins(q, c, y, xs[i]); }
      if i > p { assert Joins(q, c, y, xs[i - 1]); }
    }
  }

  lemma TupsInsert<X, K>(items: seq<T.Item<K, Stored<X>>>, p: nat, it: T.Item<K, Stored<X>>)
    requires p <= |items|
    ensures Tups(items[..p] + [it] + items[p..]) == Tups(items)[..p] + [it.val.tup] + Tups(items)[p..]
    ensures multiset(Tups(items[..p] + [it] + items[p..])) == multiset(Tups(items)) + multiset{it.val.tup}
  {
    var u := Tups(items);
    assert u == u[..p] + u[p..];
  }

  lemma ChanDrain<X, K, O>(q: Query<X, K, O>, c: nat, acc: seq<X>, done: seq<X>, queue: seq<X>, max: Option<int>,
      curr: int)
    requires ChanOk(q, c, acc, done, queue, max, curr, true)
    requires queue != [] && Ts(q, c, queue[0]) == curr
    ensures ChanOk(q, c, acc, done + [queue[0]], queue[1..], max, curr, true)
  {
    assert queue == [queue[0]] + queue[1..];
    assert done + queue == (done + [queue[0]]) + queue[1..];
  }

  /** Inserting a tuple, touched when it joined, keeps the own table's items right. */
  lemma ItemsInsert<X, K, O>(q: Query<X, K, O>, c: nat, items: seq<T.Item<K, Stored<X>>>, ys: seq<X>, p: nat,
      it: T.Item<K, Stored<X>>)
    requires p <= |items| && ItemsOk(q, c, items, ys)
    requires q.key(c, it.val.tup) == Some(it.key) && (it.val.touched <==> Joined(q, c, it.val.tup, ys))
    ensures ItemsOk(q, c, items[..p] + [it] + items[p..], ys)
  {
    hide Joined;
    var items' := items[..p] + [it] + items[p..];
    forall i | 0 <= i < |items'|
      ensures q.key(c, items'[i].val.tup) == Some(items'[i].key)
      ensures items'[i].val.touched <==> Joined(q, c, items'[i].val.tup, ys)
    {
      assert items'[i] == if i < p then items[i] else if i == p then it else items[i - 1];
    }
  }

  /** Touching the partners keeps the other table's items right. */
  lemma ItemsTouch<X, K, O>(q: Query<X, K, O>, c: nat, x: X, k: K, others: seq<T.Item<K, Stored<X>>>, xs: seq<X>,
      p: nat)
    requires c < 2 && p <= |xs| && q.key(c, x) == Some(k) && ItemsOk(q, Other(c), others, xs)
    ensures ItemsOk(q, Other(c), Touch(q, c, x, k, others), xs[..p] + [x] + xs[p..])
    ensures Tups(Touch(q, c, x, k, others)) == Tups(others)
  {
    hide Joined;
    var o, others' := Other(c), Touch(q, c, x, k, others);
    forall i | 0 <= i < |others'|
      ensures others'[i].val.touched <==> Joined(q, o, others'[i].val.tup, xs[..p] + [x] + xs[p..])
    {
      JoinedInsert(q, o, others[i].val.tup, xs, p, x);
      JoinsSymmetric(q, c, x, others[i].val.tup);
    }
  }

  lemma TblDrain<X, K, O>(q: Query<X, K, O>, c: nat, curr: int, done: seq<X>, odone: seq<X>,
      mine: T.Table<K, Stored<X>>, other: T.Table<K, Stored<X>>, x: X, k: K)
    requires c < 2 && TblOk(q, c, curr, done, mine, other) && TblOk(q, Other(c), curr, odone, other, mine)
    requires Ts(q, c, x) == curr && q.key(c, x) == Some(k)
    ensures var b := T.Bucket(other, q.hash, k);
            var hit := Probe(q, c, x, k, other.chains[b]) != [];
            var mine' := T.Insert(mine, q.hash, k, Stored(x, hit));
            var other' := other.(chains := other.chains[b := Touch(q, c, x, k, other.chains[b])]);
            TblOk(q, c, curr, done + [x], mine', other') && TblOk(q, Other(c), curr, odone, other', mine')
  {
    hide Probe, T.Valid, T.Insert, T.Items, Joined, ItemsOk, Tups, Touch, AtTs;
    var items, others := T.Items(mine), T.Items(other);
    ProbeTable(q, c, x, k, other);
    assert Keyed(q, Other(c), others) by { ItemsKeyed(q, Other(c), others, Tups(items)); }
    ProbeJoined(q, c, x, k, others);
    var it := T.Item(k, Stored(x, Probe(q, c, x, k, others) != []));
    var p := T.InsertItems(mine, q.hash, k, it.val);
    TupsInsert(items, p, it);
    TupsLength(items);
    ItemsInsert(q, c, items, Tups(others), p, it);
    ItemsTouch(q, c, x, k, others, Tups(items), p);
    AtTsSnoc(q, c, curr, done, x);
  }

  lemma ItemsKeyed<X, K, O>(q: Query<X, K, O>, c: nat, items: seq<T.Item<K, Stored<X>>>, ys: seq<X>)
    requires ItemsOk(q, c, items, ys)
    ensures Keyed(q, c, items)
  {
  }

  lemma TupsLength<X, K>(items: seq<T.Item<K, Stored<X>>>)
    ensures |Tups(items)| == |items|
  {
  }

  /** Outputs tagged with curr_ts only count for curr_ts. */
  lemma LogTag<O>(log: seq<Emit<O>>, curr: int, outs: seq<O>, t: int)
    ensures At(log + Tag(curr, outs), t) == At(log, t) + if t == curr then multiset(outs) else multiset{}
  {
    SumConcat(OutAt(t), log, Tag(curr, outs));
    AtTag(curr, outs, t);
  }

  lemma PastTag<X, K, O>(q: Query<X, K, O>, acc: seq<seq<X>>, curr: int, log: seq<Emit<O>>, outs: seq<O>)
    requires |acc| == 2 && Past(q, acc, curr, log)
    ensures Past(q, acc, curr, log + Tag(curr, outs))
  {
    hide Relational, AtTs, At, Tag;
    forall t ensures At(log + Tag(curr, outs), t) == At(log, t) + if t == curr then multiset(outs) else multiset{} {
      LogTag(log, curr, outs, t);
    }
  }

  lemma LogDrain<X, K, O>(q: Query<X, K, O>, acc: seq<seq<X>>, done: seq<seq<X>>, curr: int, log: seq<Emit<O>>,
      c: nat, x: X, k: K, other: T.Table<K, Stored<X>>, mine: T.Table<K, Stored<X>>)
    requires c < 2 && |acc| == 2 && |done| == 2 && LogOk(q, acc, done, curr, true, log)
    requires Ts(q, c, x) == curr && q.key(c, x) == Some(k) && TblOk(q, Other(c), curr, done[Other(c)], other, mine)
    ensures var outs := Probe(q, c, x, k, other.chains[T.Bucket(other, q.hash, k)]);
            LogOk(q, acc, done[c := done[c] + [x]], curr, true, log + Tag(curr, outs))
  {
    hide Probe, At, AtTs, T.Valid, T.Items, Joined, ItemsOk, Tups, Touch, Tag, Past, One;
    var o, others := Other(c), T.Items(other);
    ProbeTable(q, c, x, k, other);
    assert Keyed(q, o, others) by { ItemsKeyed(q, o, others, Tups(T.Items(mine))); }
    ProbeMatches(q, c, x, k, others);
    var outs := Probe(q, c, x, k, others);
    SumPerm(One(q, c, x), Tups(others), AtTs(q, o, curr, done[o]));
    PairsSnoc(q, c, AtTs(q, c, curr, done[c]), AtTs(q, o, curr, done[o]), x);
    AtTsSnoc(q, c, curr, done[c], x);
    LogTag(log, curr, outs, curr);
    PastTag(q, acc, curr, log, outs);
  }

  lemma DrainOneInv<X, K, O>(q: Query<X, K, O>, acc: seq<seq<X>>, done: seq<seq<X>>, s: State<X, K>, log: seq<Emit<O>>,
      c: nat)
    requires c < 2 && Inv(q, acc, done, s, log)
    requires s.valid && s.queue[c] != [] && Ts(q, c, s.queue[c][0]) == s.curr
    ensures var r := DrainOne(q, s, c);
            Inv(q, acc, done[c := done[c] + [s.queue[c][0]]], r.s, log + r.log)
  {
    hide ChanOk, TblOk, LogOk, Probe, Touch, T.Insert, AtTs, Tag;
    var x, o := s.queue[c][0], Other(c);
    ChanDrain(q, c, acc[c], done[c], s.queue[c], s.maxTs[c], s.curr);
    if q.key(c, x).Some? {
      var k := q.key(c, x).value;
      TblDrain(q, c, s.curr, done[c], done[o], s.tbl[c], s.tbl[o], x, k);
      LogDrain(q, acc, done, s.curr, log, c, x, k, s.tbl[o], s.tbl[c]);
    } else {
      Unkeyed(q, c, acc, done, s, log, x);
      assert log + [] == log;
    }
  }

  /** A tuple whose key cannot be created is consumed without effect. */
  lemma Unkeyed<X, K, O>(q: Query<X, K, O>, c: nat, acc: seq<seq<X>>, done: seq<seq<X>>, s: State<X, K>,
      log: seq<Emit<O>>, x: X)
    requires c < 2 && Inv(q, acc, done, s, log) && q.key(c, x).None?
    ensures TblOk(q, c, s.curr, done[c] + [x], s.tbl[c], s.tbl[Other(c)])
    ensures LogOk(q, acc, done[c := done[c] + [x]], s.curr, s.valid, log)
  {
    hide ChanOk, ItemsOk, Past, Pairs, T.Valid, T.Items, At, Tups, AtTs;
    AtTsSnoc(q, c, s.curr, done[c], x);
    assert AtTs(q, c, s.curr, done[c]) + [] == AtTs(q, c, s.curr, done[c]);
  }

  lemma {:induction false} DrainInv<X, K, O>(q: Query<X, K, O>, acc: seq<seq<X>>, done: seq<seq<X>>, s: State<X, K>,
      log: seq<Emit<O>>, c: nat)
      returns (done': seq<seq<X>>)
    requires c < 2 && Inv(q, acc, done, s, log)
    ensures var r := Drain(q, s, c); Inv(q, acc, done', r.s, log + r.log)
    decreases |s.queue[c]|
  {
    hide ChanOk, TblOk, LogOk, DrainOne;
    if s.valid && s.queue[c] != [] && Ts(q, c, s.queue[c][0]) == s.curr {
      DrainOneInv(q, acc, done, s, log, c);
      var r1 := DrainOne(q, s, c);
      done' := DrainInv(q, acc, done[c := done[c] + [s.queue[c][0]]], r1.s, log + r1.log, c);
      assert (log + r1.log) + Drain(q, r1.s, c).log == log + (r1.log + Drain(q, r1.s, c).log);
    } else {
      done' := done;
      assert log + [] == log;
    }
  }
}
