/** The join operator with its queues, tables and counters updated in place. */
module JoinOperators {
  import opened Options
  import opened Join
  import opened JoinProofs
  import T = Table

  function Outs<O>(log: seq<Emit<O>>): (r: seq<O>)
    ensures |r| == |log|
  {
    seq(|log|, i requires 0 <= i < |log| => log[i].out)
  }

  lemma OutsConcat<O>(a: seq<Emit<O>>, b: seq<Emit<O>>)
    ensures Outs(a + b) == Outs(a) + Outs(b)
  {
  }

  lemma OutsNil<O>()
    ensures Outs<O>([]) == []
  {
  }

  lemma OutsTag<O>(t: int, outs: seq<O>)
    ensures Outs(Tag(t, outs)) == outs
  {
  }

  class JoinOperator<X(==), K(==), O(==)> {
    const q: Query<X, K, O>
    var queue: seq<seq<X>>
    var maxTs: seq<Option<int>>
    var curr: int
    var valid: bool
    var tbl: seq<T.Table<K, Stored<X>>>
    var mem: int

    function Abs(): State<X, K>
      reads this
    {
      State(queue, maxTs, curr, valid, tbl, mem)
    }

    constructor (q: Query<X, K, O>)
      ensures Abs() == Init() && this.q == q
    {
      this.q := q;
      queue, maxTs, curr, valid := [[], []], [None, None], 0, false;
      tbl, mem := [T.Empty(T.BUCKETS), T.Empty(T.BUCKETS)], 0;
    }

    method AppendTuple(c: nat, x: X)
      requires c < 2 && Sized(Abs())
      modifies this
      ensures Abs() == Append(q, old(Abs()), c, x)
    {
      queue := queue[c := queue[c] + [x]];
      mem := (mem + q.size(x)) % WORD;
    }

    /** Probe the other table with x, emitting the matches and touching both keys of each. */
    method ProbeOther(c: nat, x: X, k: K) returns (out: seq<O>)
      requires c < 2 && |tbl| == 2 && |tbl[c].chains| > 0 && |tbl[Other(c)].chains| > 0
      requires |tbl[c].chains[T.Bucket(tbl[c], q.hash, k)]| > 0
      modifies this`tbl
      ensures var mine, other := old(tbl)[c], old(tbl)[Other(c)];
              var d, b := T.Bucket(mine, q.hash, k), T.Bucket(other, q.hash, k);
              && out == Probe(q, c, x, k, other.chains[b])
              && tbl == old(tbl)[c := if out == [] then mine else TouchAt(mine, d, 0)]
                                [Other(c) := WithChain(other, b, Touch(q, c, x, k, other.chains[b]))]
    {
      hide *;
      var o := Other(c);
      var b, d := T.Bucket(tbl[o], q.hash, k), T.Bucket(tbl[c], q.hash, k);
      var chain := tbl[o].chains[b];
      out := [];
      var p := T.FirstAt(chain, k);
      SkipPrefix(q, c, x, k, chain, p);
      ProbedStart(q, c, x, k, tbl, d, b, p);
      while p < |chain|
        invariant p <= |chain| && |tbl| == 2
        invariant out == Probe(q, c, x, k, chain[..p])
        invariant tbl == Probed(q, c, x, k, old(tbl), d, b, p, out != [])
      {
        var hit := ProbeItem(c, x, k, d, b, p, old(tbl), out != []);
        ProbeStep(q, c, x, k, chain, p);
        out := out + hit;
        p := p + 1;
      }
      assert chain[..p] == chain;
      ProbedAll(q, c, x, k, old(tbl), d, b, out != []);
    }

    /** One turn of the probe loop. */
    method ProbeItem(c: nat, x: X, k: K, d: nat, b: nat, p: nat, ghost from: seq<T.Table<K, Stored<X>>>,
        ghost hit: bool)
        returns (out: seq<O>)
      requires c < 2 && |from| == 2 && d < |from[c].chains| && |from[c].chains[d]| > 0
      requires b < |from[Other(c)].chains| && p < |from[Other(c)].chains[b]|
      requires tbl == Probed(q, c, x, k, from, d, b, p, hit)
      modifies this`tbl
      ensures var item := from[Other(c)].chains[b][p];
              out == if item.key == k && Make(q, c, x, item.val.tup).Some?
                     then [Make(q, c, x, item.val.tup).value] else []
      ensures tbl == Probed(q, c, x, k, from, d, b, p + 1, hit || out != [])
    {
      out := [];
      ghost var other := from[Other(c)];
      ghost var chain := other.chains[b];
      ProbeStep(q, c, x, k, chain, p);
      TouchLength(q, c, x, k, chain[..p]);
      var item := tbl[Other(c)].chains[b][p];
      var m := Make(q, c, x, item.val.tup);
      if item.key == k && m.Some? {
        out := [m.value];
        TouchTwice(from[c], d, 0);
        TouchWith(other, b, Touch(q, c, x, k, chain[..p]) + chain[p..], p);
        hide TouchAt, Touch, Make;
        TouchBoth(c, d, b, p);
      }
    }

    method TouchBoth(c: nat, d: nat, b: nat, p: nat)
      requires c < 2 && |tbl| == 2
      requires d < |tbl[c].chains| && |tbl[c].chains[d]| > 0
      requires b < |tbl[Other(c)].chains| && p < |tbl[Other(c)].chains[b]|
      modifies this`tbl
      ensures tbl == old(tbl)[c := TouchAt(old(tbl)[c], d, 0)][Other(c) := TouchAt(old(tbl)[Other(c)], b, p)]
    {
      tbl := tbl[c := TouchAt(tbl[c], d, 0)];
      tbl := tbl[Other(c) := TouchAt(tbl[Other(c)], b, p)];
    }

    /** One round of the join loop: pop the front tuple, store it, and join it with the other table. */
    method JoinFront(c: nat) returns (out: seq<O>)
      requires c < 2 && Sized(Abs()) && queue[c] != []
      modifies this
      ensures var r := DrainOne(q, old(Abs()), c);
              Abs() == r.s && out == Outs(r.log)
    {
      var x := queue[c][0];
      queue := queue[c := queue[c][1..]];
      mem := (mem - q.size(x)) % WORD;
      out := [];
      var key := q.key(c, x);
      if key.Some? {
        var k := key.value;
        hide Probe, Touch, T.Insert, Outs, Tag;
        out := StoreAndProbe(c, x, k);
        OutsTag(curr, out);
      }
    }

    method StoreAndProbe(c: nat, x: X, k: K) returns (out: seq<O>)
      requires c < 2 && Sized(Abs())
      modifies this`tbl
      ensures var mine, other := old(tbl)[c], old(tbl)[Other(c)];
              var b := T.Bucket(other, q.hash, k);
              && out == Probe(q, c, x, k, other.chains[b])
              && tbl == old(tbl)[c := T.Insert(mine, q.hash, k, Stored(x, out != []))]
                                [Other(c) := other.(chains := other.chains[b := Touch(q, c, x, k, other.chains[b])])]
    {
      ghost var mine := tbl[c];
      tbl := tbl[c := T.Insert(tbl[c], q.hash, k, Stored(x, false))];
      InsertTouch(mine, q.hash, k, x);
      assert T.Bucket(tbl[c], q.hash, k) == T.Bucket(mine, q.hash, k);
      hide T.Insert, T.Bucket, TouchAt, Probe, Touch;
      out := ProbeOther(c, x, k);
    }

    method ProcessJoin() returns (out: seq<O>)
      requires Sized(Abs())
      modifies this
      ensures var r := Join.ProcessJoin(q, old(Abs()));
              Abs() == r.s && out == Outs(r.log)
    {
      hide DrainOne, Drain, Outs;
      out := [];
      for c := 0 to 2
        invariant Sized(Abs())
        invariant c == 0 ==> Abs() == old(Abs()) && out == []
        invariant c == 1 ==> Abs() == Drain(q, old(Abs()), 0).s && out == Outs(Drain(q, old(Abs()), 0).log)
        invariant c == 2 ==>
                Abs() == Join.ProcessJoin(q, old(Abs())).s && out == Outs(Join.ProcessJoin(q, old(Abs())).log)
      {
        if c == 1 {
          OutsConcat(Drain(q, old(Abs()), 0).log, Drain(q, Abs(), 1).log);
        }
        var o := DrainQueue(c);
        out := out + o;
      }
    }

    /** The inner loop: consume the queue of one channel while its front belongs to the current window. */
    method DrainQueue(c: nat) returns (out: seq<O>)
      requires c < 2 && Sized(Abs())
      modifies this
      ensures var r := Drain(q, old(Abs()), c);
              Abs() == r.s && out == Outs(r.log)
    {
      hide Drain, DrainOne, Outs;
      out := [];
      OutsNil<O>();
      assert [] + Drain(q, Abs(), c).log == Drain(q, Abs(), c).log;
      ghost var log: seq<Emit<O>> := [];
      while valid && queue[c] != [] && Ts(q, c, queue[c][0]) == curr
        invariant Sized(Abs()) && out == Outs(log)
        invariant Drain(q, old(Abs()), c) == Result(Drain(q, Abs(), c).s, log + Drain(q, Abs(), c).log)
        decreases |queue[c]|
      {
        ghost var r := DrainOne(q, Abs(), c);
        DrainTurn(q, Abs(), c, log);
        var o := JoinFront(c);
        OutsConcat(log, r.log);
        out := out + o;
        log := log + r.log;
      }
      DrainEnd(q, Abs(), c);
      assert log + [] == log;
    }

    /** Emit the padded outputs of the closing window and empty both tables. */
    method ProcessOuterJoin() returns (out: seq<O>)
      requires Sized(Abs())
      modifies this`tbl
      ensures out == PadSide(q, old(Abs()), 0) + PadSide(q, old(Abs()), 1)
      ensures tbl == [T.Cleared(old(tbl)[0]), T.Cleared(old(tbl)[1])]
    {
      hide PadItems, T.Cleared, T.Items;
      out := [];
      ghost var s := Abs();
      for c := 0 to 2
        invariant |tbl| == 2
        invariant out == if c == 0 then [] else if c == 1 then PadSide(q, s, 0) else PadSide(q, s, 0) + PadSide(q, s, 1)
        invariant tbl == [if c > 0 then T.Cleared(s.tbl[0]) else s.tbl[0],
                          if c > 1 then T.Cleared(s.tbl[1]) else s.tbl[1]]
      {
        if IsOuter(q, c) {
          var pads := PadTable(c);
          out := out + pads;
        }
        tbl := tbl[c := T.Cleared(tbl[c])];
      }
    }

    method PadTable(c: nat) returns (out: seq<O>)
      requires c < 2 && Sized(Abs())
      ensures out == PadItems(q, c, T.Items(tbl[c]))
    {
      var items := T.Items(tbl[c]);
      out := [];
      var i := 0;
      while i < |items|
        invariant i <= |items|
        invariant out + PadItems(q, c, items[i..]) == PadItems(q, c, items)
      {
        var m := MakePadded(q, c, items[i].val.tup);
        if !items[i].val.touched && m.Some? {
          out := out + [m.value];
        }
        i := i + 1;
      }
    }

    /** A tuple arrives on a channel; the outputs it triggers are returned. */
    method AcceptTuple(x: Input<X>) returns (out: seq<O>)
      requires Sized(Abs())
      modifies this
      ensures var r := Step(q, old(Abs()), x);
              Abs() == r.s && out == Outs(r.log)
    {
      out := [];
      ghost var s := Abs();
      if x.channel > 1 {
        return;
      }
      var c := x.channel;
      var t := q.ts(c, x.tup);
      if t.None? {
        return;
      }
      FirstTuple(c, t.value);
      if t.value < maxTs[c].value {
        return;
      }
      maxTs := maxTs[c := t];
      if !q.isTemp(c, x.tup) && q.prefilter(c, x.tup) {
        AppendTuple(c, x.tup);
      }
      hide PadSide, T.Cleared, Drain, Outs, Tag, CompareQts, Head;
      ghost var a := Abs();
      assert Admit(q, s, x) == Some(a);
      hide Admit;
      var pads := CloseWindow();
      var outs := ProcessJoin();
      out := pads + outs;
      OutsConcat(Advance(q, a).log, Join.ProcessJoin(q, Advance(q, a).s).log);
    }

    method FirstTuple(c: nat, t: int)
      requires c < 2 && Sized(Abs())
      modifies this
      ensures Abs() == Start(q, old(Abs()), c, t)
    {
      if maxTs[c].None? {
        maxTs := maxTs[c := Some(t)];
        if maxTs[Other(c)].Some? {
          curr := if CompareQts(q, Abs()) <= 0 then maxTs[0].value else maxTs[1].value;
          valid := true;
        }
      }
    }

    method CloseWindow() returns (out: seq<O>)
      requires Sized(Abs())
      modifies this
      ensures var r := Advance(q, old(Abs()));
              Abs() == r.s && out == Outs(r.log)
    {
      hide PadSide, T.Cleared;
      out := [];
      if CompareQtsToHashTs(q, Abs(), 0) > 0 && CompareQtsToHashTs(q, Abs(), 1) > 0 {
        ghost var s := Abs();
        var minq := if CompareQts(q, Abs()) > 0 then 1 else 0;
        var next := Head(q, Abs(), minq);
        out := ProcessOuterJoin();
        OutsTag(s.curr, out);
        curr := next;
      }
    }
  }

  /** One turn of the inner loop. */
  lemma DrainTurn<X, K, O>(q: Query<X, K, O>, s: State<X, K>, c: nat, log: seq<Emit<O>>)
    requires c < 2 && Sized(s) && s.valid && s.queue[c] != [] && Ts(q, c, s.queue[c][0]) == s.curr
    ensures var r := DrainOne(q, s, c);
            && Drain(q, s, c).s == Drain(q, r.s, c).s
            && log + Drain(q, s, c).log == (log + r.log) + Drain(q, r.s, c).log
  {
    hide DrainOne;
  }

  lemma DrainEnd<X, K, O>(q: Query<X, K, O>, s: State<X, K>, c: nat)
    requires c < 2 && Sized(s) && !(s.valid && s.queue[c] != [] && Ts(q, c, s.queue[c][0]) == s.curr)
    ensures Drain(q, s, c) == Result(s, [])
  {
    hide DrainOne;
  }

  function WithChain<X, K>(t: T.Table<K, Stored<X>>, b: nat, chain: seq<T.Item<K, Stored<X>>>): T.Table<K, Stored<X>>
    requires b < |t.chains|
  {
    t.(chains := t.chains[b := chain])
  }

  /** The two tables after the probe of table Other(c) by tuple x has passed the first p items of bucket b. */
  ghost function Probed<X, K, O>(q: Query<X, K, O>, c: nat, x: X, k: K, tbl: seq<T.Table<K, Stored<X>>>, d: nat, b: nat,
      p: nat, hit: bool)
      : (r: seq<T.Table<K, Stored<X>>>)
    requires c < 2 && |tbl| == 2 && d < |tbl[c].chains| && |tbl[c].chains[d]| > 0
    requires b < |tbl[Other(c)].chains| && p <= |tbl[Other(c)].chains[b]|
    ensures |r| == 2
  {
    var chain := tbl[Other(c)].chains[b];
    tbl[c := if hit then TouchAt(tbl[c], d, 0) else tbl[c]]
       [Other(c) := WithChain(tbl[Other(c)], b, Touch(q, c, x, k, chain[..p]) + chain[p..])]
  }

  lemma ProbedStart<X, K, O>(q: Query<X, K, O>, c: nat, x: X, k: K, tbl: seq<T.Table<K, Stored<X>>>, d: nat, b: nat,
      p: nat)
    requires c < 2 && |tbl| == 2 && d < |tbl[c].chains| && |tbl[c].chains[d]| > 0 && b < |tbl[Other(c)].chains|
    requires p <= |tbl[Other(c)].chains[b]| && forall i :: 0 <= i < p ==> tbl[Other(c)].chains[b][i].key != k
    ensures Probed(q, c, x, k, tbl, d, b, p, false) == tbl
  {
    var chain := tbl[Other(c)].chains[b];
    SkipPrefix(q, c, x, k, chain, p);
    hide Touch;
    assert chain[..p] + chain[p..] == chain;
    WithChainSame(tbl[Other(c)], b, chain[..p] + chain[p..]);
    assert tbl[c := tbl[c]][Other(c) := tbl[Other(c)]] == tbl;
  }

  lemma ProbedAll<X, K, O>(q: Query<X, K, O>, c: nat, x: X, k: K, tbl: seq<T.Table<K, Stored<X>>>, d: nat, b: nat,
      hit: bool)
    requires c < 2 && |tbl| == 2 && d < |tbl[c].chains| && |tbl[c].chains[d]| > 0 && b < |tbl[Other(c)].chains|
    ensures var other := tbl[Other(c)];
            Probed(q, c, x, k, tbl, d, b, |other.chains[b]|, hit)
            == tbl[c := if hit then TouchAt(tbl[c], d, 0) else tbl[c]]
                  [Other(c) := WithChain(other, b, Touch(q, c, x, k, other.chains[b]))]
  {
    var chain := tbl[Other(c)].chains[b];
    assert chain[..|chain|] == chain;
    assert Touch(q, c, x, k, chain) + chain[|chain|..] == Touch(q, c, x, k, chain);
  }

  /** `touch()` on the key of the p-th item of a bucket. */
  function TouchAt<X, K>(t: T.Table<K, Stored<X>>, b: nat, p: nat): T.Table<K, Stored<X>>
    requires b < |t.chains| && p < |t.chains[b]|
  {
    var it := t.chains[b][p];
    WithChain(t, b, t.chains[b][p := T.Item(it.key, Stored(it.val.tup, true))])
  }

  lemma WithChainSame<X, K>(t: T.Table<K, Stored<X>>, b: nat, chain: seq<T.Item<K, Stored<X>>>)
    requires b < |t.chains| && chain == t.chains[b]
    ensures WithChain(t, b, chain) == t
  {
  }

  lemma TouchTwice<X, K>(t: T.Table<K, Stored<X>>, b: nat, p: nat)
    requires b < |t.chains| && p < |t.chains[b]|
    ensures var t' := TouchAt(t, b, p);
            b < |t'.chains| && p < |t'.chains[b]| && TouchAt(t', b, p) == t'
  {
    var t' := TouchAt(t, b, p);
    assert t'.chains[b][p := t'.chains[b][p]] == t'.chains[b];
    assert t'.chains[b := t'.chains[b]] == t'.chains;
  }

  lemma TouchWith<X, K>(t: T.Table<K, Stored<X>>, b: nat, chain: seq<T.Item<K, Stored<X>>>, p: nat)
    requires b < |t.chains| && p < |chain|
    ensures TouchAt(WithChain(t, b, chain), b, p)
         == WithChain(t, b, chain[p := T.Item(chain[p].key, Stored(chain[p].val.tup, true))])
  {
    assert t.chains[b := chain][b := chain[p := T.Item(chain[p].key, Stored(chain[p].val.tup, true))]]
        == t.chains[b := chain[p := T.Item(chain[p].key, Stored(chain[p].val.tup, true))]];
  }

  /** An item inserted untouched and then touched is the item inserted touched. */
  lemma InsertTouch<X, K>(t: T.Table<K, Stored<X>>, hash: K -> nat, k: K, x: X)
    requires |t.chains| > 0
    ensures var u := T.Insert(t, hash, k, Stored(x, false));
            var d := T.Bucket(u, hash, k);
            |u.chains[d]| > 0 && TouchAt(u, d, 0) == T.Insert(t, hash, k, Stored(x, true))
  {
    var d := T.Bucket(t, hash, k);
    assert ([T.Item(k, Stored(x, false))] + t.chains[d])[0 := T.Item(k, Stored(x, true))]
        == [T.Item(k, Stored(x, true))] + t.chains[d];
    assert t.chains[d := [T.Item(k, Stored(x, false))] + t.chains[d]][d := [T.Item(k, Stored(x, true))] + t.chains[d]]
        == t.chains[d := [T.Item(k, Stored(x, true))] + t.chains[d]];
  }

  lemma TouchLength<X, K, O>(q: Query<X, K, O>, c: nat, x: X, k: K, chain: seq<T.Item<K, Stored<X>>>)
    ensures |Touch(q, c, x, k, chain)| == |chain|
  {
  }

  lemma SkipPrefix<X, K, O>(q: Query<X, K, O>, c: nat, x: X, k: K, chain: seq<T.Item<K, Stored<X>>>, p: nat)
    requires p <= |chain| && forall i :: 0 <= i < p ==> chain[i].key != k
    ensures Probe(q, c, x, k, chain[..p]) == [] && Touch(q, c, x, k, chain[..p]) == chain[..p]
  {
    ProbeNone(q, c, x, k, chain[..p]);
  }

  lemma ProbeStep<X, K, O>(q: Query<X, K, O>, c: nat, x: X, k: K, chain: seq<T.Item<K, Stored<X>>>, p: nat)
    requires p < |chain|
    ensures var hit := chain[p].key == k && Make(q, c, x, chain[p].val.tup).Some?;
            && Probe(q, c, x, k, chain[..p + 1])
               == Probe(q, c, x, k, chain[..p]) + (if hit then [Make(q, c, x, chain[p].val.tup).value] else [])
            && Touch(q, c, x, k, chain[..p + 1]) + chain[p + 1..]
               == (if hit
                   then (Touch(q, c, x, k, chain[..p]) + chain[p..])[p := T.Item(k, Stored(chain[p].val.tup, true))]
                   else Touch(q, c, x, k, chain[..p]) + chain[p..])
            && (Touch(q, c, x, k, chain[..p]) + chain[p..])[p] == chain[p]
  {
    assert chain[..p + 1] == chain[..p] + [chain[p]];
    ProbeConcat(q, c, x, k, chain[..p], [chain[p]]);
  }
}
