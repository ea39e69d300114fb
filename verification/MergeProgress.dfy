/** What the merge has heard of each channel, and that nothing it has heard of is held back. */
module MergeProgress {
  import opened Merge
  import opened MergeProofs
  import opened MergeTheorems

  /**
   * The greatest timestamp of the inputs of channel c, status tuples included, that arrived while nothing was queued or
   * while tuples of the other channel were queued, so that channel c was awaited.
   */
  ghost function Heard<X>(ins: seq<Tuple<X>>, start: int, outChan: int, c: nat): int {
    if ins == [] then start else
    var n := |ins| - 1;
    Hears(Run(ins[..n], start, outChan).s.queue, ins[n], c, Heard(ins[..n], start, outChan, c))
  }

  ghost function Hears<X>(queue: seq<Tuple<X>>, t: Tuple<X>, c: nat, h: int): int {
    if t.chan == c && (queue == [] || queue[0].chan != c) && t.ts > h then t.ts else h
  }

  /** h is what has been heard of the two channels: posted timestamps and queued tuples are not behind it. */
  ghost predicate NotBehind<X>(s: State<X>, h: seq<int>) {
    && |h| == |s.last| == 2 && h[0] <= s.last[0] && h[1] <= s.last[1]
    && forall i :: 0 <= i < |s.queue| ==> s.queue[i].chan < 2 && h[s.queue[i].chan] <= s.queue[i].ts
  }

  ghost function Next<X>(s: State<X>, t: Tuple<X>, h: seq<int>): seq<int>
    requires |h| == 2
  {
    [Hears(s.queue, t, 0, h[0]), Hears(s.queue, t, 1, h[1])]
  }

  lemma AheadHears<X>(s: State<X>, t: Tuple<X>, outChan: int, h: seq<int>)
    requires Inv(s) && NotBehind(s, h) && t.chan < 2 && !Late(s, t) && (s.wait < 0 || s.wait != t.chan)
    ensures NotBehind(Ahead(s, t, outChan).s, Next(s, t, h))
  {
    hide Bytes, Counted;
  }

  lemma AwaitedHears<X>(s: State<X>, t: Tuple<X>, h: seq<int>)
    requires Inv(s) && NotBehind(s, h) && t.chan < 2 && !Late(s, t) && s.wait == t.chan
    ensures NotBehind(Awaited(s, t).s, Next(s, t, h))
  {
    var k := AwaitedShape(s, t);
    hide Bytes, Counted, Awaited;
    var r := Awaited(s, t);
    var j := if k < |s.queue| then k else k - 1;
    assert s.queue[j].chan == 1 - t.chan && r.s.last[1 - t.chan] == s.queue[j].ts;
    forall i | 0 <= i < |r.s.queue| ensures r.s.queue[i] in s.queue || r.s.queue[i] == t {
      InsertedMember(s, t, r, k, i);
    }
  }

  lemma InsertedMember<X>(s: State<X>, t: Tuple<X>, r: Result<X>, k: nat, i: nat)
    requires |s.last| == 2 && Inserted(s, t, r, k) && i < |r.s.queue|
    ensures r.s.queue[i] in s.queue || r.s.queue[i] == t
  {
    assert r.s.queue[i] == (r.log + r.s.queue)[|r.log| + i];
  }

  lemma AcceptHears<X>(s: State<X>, t: Tuple<X>, outChan: int, h: seq<int>)
    requires Inv(s) && NotBehind(s, h)
    ensures NotBehind(Accept(s, t, outChan).s, Next(s, t, h))
  {
    hide Bytes, Counted, Ahead, Awaited;
    if t.chan < 2 && !Late(s, t) {
      if s.wait < 0 || s.wait != t.chan {
        AheadHears(s, t, outChan, h);
      } else {
        AwaitedHears(s, t, h);
      }
    }
  }

  lemma {:induction false} RunHears<X>(ins: seq<Tuple<X>>, start: int, outChan: int)
    ensures NotBehind(Run(ins, start, outChan).s, [Heard(ins, start, outChan, 0), Heard(ins, start, outChan, 1)])
  {
    if ins != [] {
      hide Inv, Accept, NotBehind, Hears;
      var n := |ins| - 1;
      RunHears(ins[..n], start, outChan);
      RunInv(ins[..n], start, outChan);
      AcceptHears(Run(ins[..n], start, outChan).s, ins[n], outChan,
                  [Heard(ins[..n], start, outChan, 0), Heard(ins[..n], start, outChan, 1)]);
    }
  }

  /**
   * The front of the queue is strictly later than everything heard of the other channel.  If the accepted tuples of
   * each channel are in order, so is every queued tuple.
   */
  lemma QueueIsLater<X>(ins: seq<Tuple<X>>, start: int, outChan: int, i: nat)
    requires i < |Run(ins, start, outChan).s.queue|
    requires i == 0 || ChannelSorted(Received(ins, start, outChan, false))
    ensures var t := Run(ins, start, outChan).s.queue[i];
            t.chan < 2 && Heard(ins, start, outChan, 1 - t.chan) < t.ts
  {
    hide Run, Heard, Received, Bytes;
    var r := Run(ins, start, outChan);
    RunHears(ins, start, outChan);
    RunInv(ins, start, outChan);
    if i > 0 {
      SortedRun(ins, start, outChan);
      SortedQueue(r.log, r.s.queue);
    }
  }

  /** A regular tuple that the other channel has reached is not held back. */
  lemma DueTupleLeaves<X>(ins: seq<Tuple<X>>, start: int, outChan: int, t: Tuple<X>)
    requires ChannelSorted(Received(ins, start, outChan, false)) && t in Received(ins, start, outChan, false)
    requires t.chan < 2 && t.ts <= Heard(ins, start, outChan, 1 - t.chan)
    ensures t in Run(ins, start, outChan).log && t !in Run(ins, start, outChan).s.queue
  {
    hide Run, Heard, Received, ChannelSorted;
    var r := Run(ins, start, outChan);
    QueuedWasReceived(ins, start, outChan, t);
    if t in r.s.queue {
      var i: nat :| i < |r.s.queue| && r.s.queue[i] == t;
      QueueIsLater(ins, start, outChan, i);
    }
  }

  /**
   * A tuple is dropped only if the start or an earlier input of its channel is later, and always if something heard of
   * its channel is.
   */
  lemma DroppedIsBehind<X>(ins: seq<Tuple<X>>, start: int, outChan: int, t: Tuple<X>)
    requires t.chan < 2
    ensures Late(Run(ins, start, outChan).s, t) ==>
              t.ts < start || exists i :: 0 <= i < |ins| && ins[i].chan == t.chan && t.ts < ins[i].ts
    ensures t.ts < Heard(ins, start, outChan, t.chan) ==> Late(Run(ins, start, outChan).s, t)
  {
    hide Run, Heard;
    RunHears(ins, start, outChan);
    RunPosted(ins, start, outChan);
  }

  // ------------------------------------------------ a queue out of order

  /** Channel 0 out of order behind its front. */
  function Unsorted(): seq<Tuple<int>> {
    [Tuple(0, 5, false, 0, 0), Tuple(0, 10, false, 0, 0), Tuple(0, 7, false, 0, 0), Tuple(1, 8, false, 0, 0)]
  }

  lemma RunNext<X>(ins: seq<Tuple<X>>, start: int, outChan: int, t: Tuple<X>)
    ensures Run(ins + [t], start, outChan)
         == var r1 := Run(ins, start, outChan); var r2 := Accept(r1.s, t, outChan); Result(r2.s, r1.log + r2.log)
    ensures Heard(ins + [t], start, outChan, 1)
         == Hears(Run(ins, start, outChan).s.queue, t, 1, Heard(ins, start, outChan, 1))
  {
    assert (ins + [t])[..|ins|] == ins;
  }

  /** Order on the channels is needed: here a tuple stays queued although the other channel has passed it. */
  lemma UnsortedQueueLags()
    ensures var s := Run(Unsorted(), 0, 0).s;
            |s.queue| == 2 && s.queue[1].ts == 7 && s.queue[1].chan == 0 && Heard(Unsorted(), 0, 0, 1) == 8
  {
    hide Run, Heard, Accept;
    var u := Unsorted();
    RunNext([], 0, 0, u[0]);
    RunNext(u[..1], 0, 0, u[1]);
    RunNext(u[..2], 0, 0, u[2]);
    RunNext(u[..3], 0, 0, u[3]);
    assert [] + [u[0]] == u[..1] && u[..1] + [u[1]] == u[..2] && u[..2] + [u[2]] == u[..3] && u[..3] + [u[3]] == u;
    StartOf(0, 0);
    UnsortedQueue();
  }

  lemma StartOf(start: int, outChan: int)
    ensures Run<int>([], start, outChan) == Result(Init(start), []) && Heard<int>([], start, outChan, 1) == start
  {
  }

  lemma UnsortedQueue()
    ensures var u := Unsorted();
            var s1 := Accept(Init(0), u[0], 0).s;
            var s2 := Accept(s1, u[1], 0).s;
            var s3 := Accept(s2, u[2], 0).s;
            s1.queue == u[..1] && s2.queue == u[..2] && s3.queue == u[..3] && Accept(s3, u[3], 0).s.queue == u[1..3]
  {
    var u := Unsorted();
    var s3 := State(1, u[..3], 3, [5, 0], 0, 0);
    assert Accept(Init(0), u[0], 0).s == State(1, u[..1], 1, [5, 0], 0, 0);
    assert Accept(State(1, u[..1], 1, [5, 0], 0, 0), u[1], 0).s == State(1, u[..2], 2, [5, 0], 0, 0);
    assert Accept(State(1, u[..2], 2, [5, 0], 0, 0), u[2], 0).s == s3;
    UnsortedPurge(s3);
  }

  lemma UnsortedPurge(s: State<int>)
    requires s == State(1, Unsorted()[..3], 3, [5, 0], 0, 0)
    ensures Accept(s, Unsorted()[3], 0).s.queue == Unsorted()[1..3]
  {
    var u := Unsorted();
    var s1 := Post(s, 1, 8);
    var s2 := State(1, u[1..3], 2, [10, 8], 0, 0);
    assert s.queue[1..] == u[1..3];
    assert Purge(s2, 0).s == s2;
    assert Purge(s1, 0).s == s2;
  }
}
