/** Every run of the merge keeps one queue, loses nothing, and preserves timestamp order. */
module MergeProofs {
  import opened Merge

  ghost predicate QueueOf<X>(q: seq<Tuple<X>>, c: int) {
    forall i :: 0 <= i < |q| ==> q[i].chan == c && !q[i].temp
  }

  ghost predicate Counted<X>(s: State<X>) {
    |s.last| == 2 && s.qsize == |s.queue| && s.mem == Bytes(s.queue) % WORD
  }

  /**
   * The queue holds one channel.  The operator waits for the other one exactly when the queue is not empty; then the
   * front of the queue is the last posted timestamp of its channel and is later than the other channel's.
   */
  ghost predicate Inv<X>(s: State<X>) {
    && Counted(s)
    && (s.queue == [] ==> s.wait == -1)
    && (s.queue != [] ==>
          && 0 <= s.wait <= 1 && QueueOf(s.queue, 1 - s.wait)
          && s.last[1 - s.wait] == s.queue[0].ts && s.last[s.wait] < s.queue[0].ts)
  }

  lemma ModWord(a: int, b: int)
    ensures (a % WORD + b) % WORD == (a + b) % WORD
  {
  }

  lemma {:induction false} BytesSnoc<X>(q: seq<Tuple<X>>, t: Tuple<X>)
    ensures Bytes(q + [t]) == Bytes(q) + t.size
  {
    if q == [] {
      assert q + [t] == [t] && [t][1..] == [];
    } else {
      assert (q + [t])[1..] == q[1..] + [t];
      BytesSnoc(q[1..], t);
    }
  }

  lemma AppendCounted<X>(s: State<X>, t: Tuple<X>)
    requires Counted(s)
    ensures Counted(Append(s, t))
  {
    BytesSnoc(s.queue, t);
    ModWord(Bytes(s.queue), t.size);
  }

  lemma PopCounted<X>(s: State<X>)
    requires Counted(s) && s.queue != []
    ensures Counted(s.(queue := s.queue[1..], qsize := s.qsize - 1, mem := (s.mem - s.queue[0].size) % WORD))
  {
    var n: int := s.queue[0].size;
    ModWord(Bytes(s.queue), -n);
  }

  lemma {:induction false} PurgeCounted<X>(s: State<X>, c: nat)
    requires Counted(s) && c < 2
    ensures Counted(Purge(s, c).s) && Purge(s, c).s.wait == s.wait
    decreases |s.queue|
  {
    hide Bytes;
    if s.queue != [] && s.queue[0].ts <= s.last[1 - c] {
      PopCounted(s);
      var h := s.queue[0];
      var s1 := Post(s.(queue := s.queue[1..], qsize := s.qsize - 1, mem := (s.mem - h.size) % WORD), h.chan, h.ts);
      if s1.queue != [] {
        PurgeCounted(Post(s1, s1.queue[0].chan, s1.queue[0].ts), c);
      }
    }
  }

  ghost predicate Released<X>(s: State<X>, c: nat, r: Result<X>)
    requires |s.last| == 2 && c < 2
  {
    var k := |r.log|;
    && k <= |s.queue| && r.log == s.queue[..k] && r.s.queue == s.queue[k..]
    && (forall i :: 0 <= i < k ==> s.queue[i].ts <= s.last[1 - c])
    && (k < |s.queue| ==> s.queue[k].ts > s.last[1 - c])
    && r.s.last == (if s.queue == [] then s.last else s.last[c := s.queue[if k < |s.queue| then k else k - 1].ts])
  }

  /** A purge releases exactly the front tuples up to the first that is later than the other channel. */
  lemma {:induction false} PurgeShape<X>(s: State<X>, c: nat)
    requires |s.last| == 2 && c < 2 && QueueOf(s.queue, c) && (s.queue != [] ==> s.last[c] == s.queue[0].ts)
    ensures Released(s, c, Purge(s, c))
    decreases |s.queue|
  {
    hide Released, Post, QueueOf;
    if s.queue != [] && s.queue[0].ts <= s.last[1 - c] {
      var h := s.queue[0];
      var s1 := Post(s.(queue := s.queue[1..], qsize := s.qsize - 1, mem := (s.mem - h.size) % WORD), h.chan, h.ts);
      Popped(s, c);
      if s1.queue != [] {
        var s2 := Post(s1, s1.queue[0].chan, s1.queue[0].ts);
        PurgeShape(s2, c);
        ReleasedCons(s, c, s2, Purge(s2, c));
      } else {
        ReleasedLast(s, c, s1);
      }
    } else {
      ReleasedNone(s, c);
    }
  }

  lemma Popped<X>(s: State<X>, c: nat)
    requires |s.last| == 2 && c < 2 && QueueOf(s.queue, c) && s.queue != []
    ensures var h := s.queue[0];
            var s0 := s.(queue := s.queue[1..], qsize := s.qsize - 1, mem := (s.mem - h.size) % WORD);
            var s1 := Post(s0, h.chan, h.ts);
            && s1.queue == s.queue[1..] && s1.last == s.last[c := h.ts] && QueueOf(s1.queue, c)
            && (s1.queue != [] ==>
                  var s2 := Post(s1, s1.queue[0].chan, s1.queue[0].ts);
                  s2.queue == s1.queue && s2.last == s.last[c := s.queue[1].ts])
  {
  }

  lemma ReleasedNone<X>(s: State<X>, c: nat)
    requires |s.last| == 2 && c < 2 && (s.queue != [] ==> s.last[c] == s.queue[0].ts > s.last[1 - c])
    ensures Released(s, c, Result(s, []))
  {
    assert s.last[c := s.last[c]] == s.last;
  }

  lemma ReleasedLast<X>(s: State<X>, c: nat, s1: State<X>)
    requires |s.last| == 2 && c < 2 && |s.queue| == 1 && s.queue[0].ts <= s.last[1 - c]
    requires s1.queue == [] && s1.last == s.last[c := s.queue[0].ts]
    ensures Released(s, c, Result(s1, [s.queue[0]]))
  {
  }

  lemma ReleasedCons<X>(s: State<X>, c: nat, s2: State<X>, r: Result<X>)
    requires |s.last| == 2 && c < 2 && |s.queue| > 1 && s.queue[0].ts <= s.last[1 - c]
    requires s2.queue == s.queue[1..] && s2.last == s.last[c := s.queue[1].ts] && Released(s2, c, r)
    ensures Released(s, c, Result(r.s, [s.queue[0]] + r.log))
  {
    var k := |r.log|;
    assert [s.queue[0]] + s.queue[1..][..k] == s.queue[..k + 1];
    forall i | 0 <= i < k + 1 ensures s.queue[i].ts <= s.last[1 - c] {
      if i > 0 { assert s2.queue[i - 1] == s.queue[i]; }
    }
  }

  ghost predicate Taken<X>(s: State<X>, t: Tuple<X>)
    requires |s.last| == 2
  {
    t.chan < 2 && !t.temp && !Late(s, t)
  }

  /** The new output followed by the queue is the old queue with the tuple, if taken, inserted at k. */
  ghost predicate Inserted<X>(s: State<X>, t: Tuple<X>, r: Result<X>, k: nat)
    requires |s.last| == 2
  {
    && k <= |s.queue|
    && r.log + r.s.queue == s.queue[..k] + (if Taken(s, t) then [t] else []) + s.queue[k..]
    && (forall i :: k <= i < |s.queue| ==> s.queue[i].chan != t.chan)
  }

  lemma AheadShape<X>(s: State<X>, t: Tuple<X>, outChan: int)
    requires Inv(s) && t.chan < 2 && !Late(s, t) && (s.wait < 0 || s.wait != t.chan)
    ensures var r := Ahead(s, t, outChan);
            && Inv(if r.s.qsize == 0 then r.s.(wait := -1) else r.s)
            && r.log + r.s.queue == s.queue + (if Taken(s, t) then [t] else [])
            && (forall i :: 0 <= i < |r.log| ==> r.log[i] == t && t.ts <= r.s.last[0] && t.ts <= r.s.last[1])
            && r.s.last[t.chan] >= s.last[t.chan] && r.s.last[1 - t.chan] == s.last[1 - t.chan]
  {
    hide Inv, Bytes;
    AheadInv(s, t, outChan);
    AheadOut(s, t, outChan);
  }

  lemma AheadInv<X>(s: State<X>, t: Tuple<X>, outChan: int)
    requires Inv(s) && t.chan < 2 && !Late(s, t) && (s.wait < 0 || s.wait != t.chan)
    ensures var r := Ahead(s, t, outChan); Inv(if r.s.qsize == 0 then r.s.(wait := -1) else r.s)
  {
    hide Bytes;
    AppendCounted(s, t);
    AppendCounted(Post(s, t.chan, t.ts), t);
  }

  lemma AheadOut<X>(s: State<X>, t: Tuple<X>, outChan: int)
    requires Inv(s) && t.chan < 2 && !Late(s, t) && (s.wait < 0 || s.wait != t.chan)
    ensures var r := Ahead(s, t, outChan);
            && r.log + r.s.queue == s.queue + (if Taken(s, t) then [t] else [])
            && (forall i :: 0 <= i < |r.log| ==> r.log[i] == t && t.ts <= r.s.last[0] && t.ts <= r.s.last[1])
            && r.s.last[t.chan] >= s.last[t.chan] && r.s.last[1 - t.chan] == s.last[1 - t.chan]
  {
    hide Bytes, QueueOf;
    assert s.queue + [] == s.queue;
  }

  /** What is known after an awaited tuple has purged the queue: k tuples are out. */
  ghost predicate Purged<X>(s: State<X>, t: Tuple<X>, p: State<X>, k: nat)
    requires Inv(s) && s.wait == t.chan
  {
    && k <= |s.queue| && p.queue == s.queue[k..] && Counted(p) && p.wait == t.chan
    && (forall i :: 0 <= i < k ==> s.queue[i].ts <= t.ts)
    && (k < |s.queue| ==> s.queue[k].ts > t.ts)
    && p.last[t.chan] == t.ts && p.last[1 - t.chan] == s.queue[if k < |s.queue| then k else k - 1].ts
  }

  lemma PurgedState<X>(s: State<X>, t: Tuple<X>)
    requires Inv(s) && t.chan < 2 && s.wait == t.chan
    ensures var p := Purge(Post(s, t.chan, t.ts), 1 - t.chan);
            Purged(s, t, p.s, |p.log|) && p.log == s.queue[..|p.log|]
  {
    hide Bytes, Purge;
    var s1 := Post(s, t.chan, t.ts);
    PurgeShape(s1, 1 - t.chan);
    PurgeCounted(s1, 1 - t.chan);
  }

  lemma AwaitedInv<X>(s: State<X>, t: Tuple<X>)
    requires Inv(s) && t.chan < 2 && s.wait == t.chan
    ensures var r := Awaited(s, t); Inv(if r.s.qsize == 0 then r.s.(wait := -1) else r.s)
  {
    hide Bytes, Purge;
    PurgedState(s, t);
    AppendCounted(Purge(Post(s, t.chan, t.ts), 1 - t.chan).s, t);
  }

  /** An awaited tuple takes its place between the released tuples and the rest of the queue. */
  lemma AwaitedShape<X>(s: State<X>, t: Tuple<X>) returns (k: nat)
    requires Inv(s) && t.chan < 2 && !Late(s, t) && s.wait == t.chan
    ensures var r := Awaited(s, t);
            && k <= |s.queue| && Inserted(s, t, r, k)
            && r.log == s.queue[..k] + (if Taken(s, t) && t.ts <= r.s.last[1 - t.chan] then [t] else [])
            && (forall i :: 0 <= i < k ==> s.queue[i].ts <= t.ts) && (k < |s.queue| ==> s.queue[k].ts > t.ts)
            && r.s.last[t.chan] == t.ts
            && r.s.last[1 - t.chan] == s.queue[if k < |s.queue| then k else k - 1].ts
  {
    hide Bytes, Purge;
    PurgedState(s, t);
    k := |Purge(Post(s, t.chan, t.ts), 1 - t.chan).log|;
    SplitInsert(s.queue, k, t);
  }

  lemma SplitInsert<Y>(q: seq<Y>, k: nat, t: Y)
    requires k <= |q|
    ensures q[..k] + [t] + q[k..] == (q[..k] + [t]) + q[k..]
    ensures q[..k] + [] == q[..k] && q[..k] + q[k..] == q
    ensures k == |q| ==> q[k..] == [] && q[k..] + [t] == [t] && q[..k] + [t] + q[k..] == q[..k] + [t]
  {
  }
}
