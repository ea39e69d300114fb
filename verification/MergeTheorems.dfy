/** The merge over whole runs: conservation, channel order, and when the output is sorted. */
module MergeTheorems {
  import opened Merge
  import opened MergeProofs

  /** One step keeps the invariant and puts a taken tuple at one place of output-and-queue. */
  lemma AcceptKeeps<X>(s: State<X>, t: Tuple<X>, outChan: int) returns (k: nat)
    requires Inv(s)
    ensures Inv(Accept(s, t, outChan).s) && Inserted(s, t, Accept(s, t, outChan), k)
  {
    hide Bytes, Purge, Awaited, Ahead;
    k := |s.queue|;
    SplitInsert(s.queue, k, t);
    assert [] + s.queue == s.queue;
    if t.chan < 2 && !Late(s, t) {
      if s.wait < 0 || s.wait != t.chan {
        AheadShape(s, t, outChan);
        assert s.queue[k..] == [] && s.queue[..k] == s.queue;
      } else {
        AwaitedInv(s, t);
        k := AwaitedShape(s, t);
      }
    }
  }

  lemma {:induction false} RunInv<X>(ins: seq<Tuple<X>>, start: int, outChan: int)
    ensures Inv(Run(ins, start, outChan).s)
  {
    hide Inv, Accept;
    if ins == [] {
      InitInv<X>(start);
    } else {
      RunInv(ins[..|ins| - 1], start, outChan);
      var k := AcceptKeeps(Run(ins[..|ins| - 1], start, outChan).s, ins[|ins| - 1], outChan);
    }
  }

  lemma InitInv<X>(start: int)
    ensures Inv(Init<X>(start))
  {
  }

  // ------------------------------------------------ channels

  lemma OfSnoc<X>(a: seq<Tuple<X>>, t: Tuple<X>, c: nat)
    ensures OfChannel(a + [t], c) == OfChannel(a, c) + (if t.chan == c then [t] else [])
  {
    assert (a + [t])[..|a|] == a;
  }

  lemma {:induction false} OfConcat<X>(a: seq<Tuple<X>>, b: seq<Tuple<X>>, c: nat)
    ensures OfChannel(a + b, c) == OfChannel(a, c) + OfChannel(b, c)
  {
    if b == [] {
      assert a + b == a;
    } else {
      var n := |b| - 1;
      assert a + b == (a + b[..n]) + [b[n]] && b == b[..n] + [b[n]];
      OfConcat(a, b[..n], c);
      OfSnoc(a + b[..n], b[n], c);
      OfSnoc(b[..n], b[n], c);
    }
  }

  lemma {:induction false} OfNone<X>(a: seq<Tuple<X>>, c: nat)
    requires forall i :: 0 <= i < |a| ==> a[i].chan != c
    ensures OfChannel(a, c) == []
  {
    if a != [] { OfNone(a[..|a| - 1], c); }
  }

  lemma {:induction false} OfMember<X>(a: seq<Tuple<X>>, c: nat, t: Tuple<X>)
    ensures t in OfChannel(a, c) <==> t in a && t.chan == c
  {
    if a != [] {
      OfMember(a[..|a| - 1], c, t);
      assert a == a[..|a| - 1] + [a[|a| - 1]];
    }
  }

  /** Inserting a tuple before tuples of the other channel only appends to its own channel. */
  lemma OfInserted<X>(log: seq<Tuple<X>>, q: seq<Tuple<X>>, k: nat, t: Tuple<X>, c: nat)
    requires k <= |q| && forall i :: k <= i < |q| ==> q[i].chan != t.chan
    ensures OfChannel(log + (q[..k] + [t] + q[k..]), c) == OfChannel(log + q, c) + OfChannel([t], c)
  {
    hide OfChannel;
    OfConcat(log, q[..k] + [t] + q[k..], c);
    OfConcat(q[..k] + [t], q[k..], c);
    OfConcat(q[..k], [t], c);
    OfConcat(log, q, c);
    OfConcat(q[..k], q[k..], c);
    assert q == q[..k] + q[k..];
    if t.chan == c { OfNone(q[k..], c); } else { OfNone([t], c); }
    Shuffle(OfChannel(log, c), OfChannel(q[..k], c), OfChannel([t], c), OfChannel(q[k..], c));
  }

  lemma Shuffle<Y>(a: seq<Y>, b: seq<Y>, m: seq<Y>, d: seq<Y>)
    requires d == [] || m == []
    ensures a + ((b + m) + d) == (a + (b + d)) + m
  {
    if d == [] {
      assert a + ((b + m) + d) == a + b + m && (a + (b + d)) + m == a + b + m;
    } else {
      assert a + ((b + m) + d) == a + b + d && (a + (b + d)) + m == a + b + d;
    }
  }

  lemma StepChannels<X>(log: seq<Tuple<X>>, s: State<X>, t: Tuple<X>, r: Result<X>, k: nat, c: nat)
    requires |s.last| == 2 && Inserted(s, t, r, k)
    ensures OfChannel((log + r.log) + r.s.queue, c)
         == OfChannel(log + s.queue, c) + (if Taken(s, t) then OfChannel([t], c) else [])
  {
    hide OfChannel, Taken;
    assert (log + r.log) + r.s.queue == log + (r.log + r.s.queue);
    if Taken(s, t) {
      OfInserted(log, s.queue, k, t, c);
    } else {
      assert s.queue[..k] + [] + s.queue[k..] == s.queue;
    }
  }

  lemma ReceivedSnoc<X>(ins: seq<Tuple<X>>, start: int, outChan: int, late: bool)
    requires ins != []
    ensures var n := |ins| - 1;
            var taken := ins[n].chan < 2 && !ins[n].temp && Late(Run(ins[..n], start, outChan).s, ins[n]) == late;
            Received(ins, start, outChan, late)
            == Received(ins[..n], start, outChan, late) + (if taken then [ins[n]] else [])
  {
  }

  /** Per channel, the output followed by the queue is exactly what was accepted from it, in arrival order. */
  lemma {:induction false} RunKeepsChannels<X>(ins: seq<Tuple<X>>, start: int, outChan: int, c: nat)
    ensures var r := Run(ins, start, outChan);
            OfChannel(r.log + r.s.queue, c) == OfChannel(Received(ins, start, outChan, false), c)
  {
    if ins != [] {
      var n := |ins| - 1;
      RunKeepsChannels(ins[..n], start, outChan, c);
      hide Inv, Accept, OfChannel, Late, Inserted, Received;
      var r1 := Run(ins[..n], start, outChan);
      ReceivedSnoc(ins, start, outChan, false);
      RunInv(ins[..n], start, outChan);
      var k := AcceptKeeps(r1.s, ins[n], outChan);
      StepChannels(r1.log, r1.s, ins[n], Accept(r1.s, ins[n], outChan), k, c);
      OfConcat(Received(ins[..n], start, outChan, false), [ins[n]], c);
    }
  }

  lemma StepConserves<X>(log: seq<Tuple<X>>, s: State<X>, t: Tuple<X>, r: Result<X>, k: nat)
    requires |s.last| == 2 && Inserted(s, t, r, k)
    ensures multiset(log + r.log) + multiset(r.s.queue)
         == multiset(log) + multiset(s.queue) + (if Taken(s, t) then multiset{t} else multiset{})
  {
    hide Taken;
    var mine := if Taken(s, t) then [t] else [];
    var a, b := s.queue[..k], s.queue[k..];
    assert s.queue == a + b;
    assert multiset(s.queue) == multiset(a) + multiset(b);
    assert multiset(a + mine + b) == multiset(a) + multiset(mine) + multiset(b);
    assert multiset(r.log + r.s.queue) == multiset(a + mine + b);
    assert multiset(mine) == if Taken(s, t) then multiset{t} else multiset{};
    assert multiset(r.log + r.s.queue) == multiset(r.log) + multiset(r.s.queue);
    assert multiset(log + r.log) == multiset(log) + multiset(r.log);
    assert multiset(log) + (multiset(a) + multiset(mine) + multiset(b))
        == multiset(log) + (multiset(a) + multiset(b)) + multiset(mine);
    assert multiset(log) + multiset(r.log) + multiset(r.s.queue)
        == multiset(log) + (multiset(r.log) + multiset(r.s.queue));
  }

  /** Output, queue and dropped tuples together are the regular tuples received. */
  lemma {:induction false} RunConserves<X>(ins: seq<Tuple<X>>, start: int, outChan: int)
    ensures var r := Run(ins, start, outChan);
            multiset(r.log) + multiset(r.s.queue) + multiset(Received(ins, start, outChan, true))
                == multiset(Regular(ins))
  {
    if ins != [] {
      var n := |ins| - 1;
      RunConserves(ins[..n], start, outChan);
      hide Inv, Accept, Late, Inserted, Received, Regular;
      var t := ins[n];
      var r1 := Run(ins[..n], start, outChan);
      var r2 := Accept(r1.s, t, outChan);
      RunInv(ins[..n], start, outChan);
      var k := AcceptKeeps(r1.s, t, outChan);
      StepConserves(r1.log, r1.s, t, r2, k);
      Accounted(ins, start, outChan);
      var taken := if Taken(r1.s, t) then multiset{t} else multiset{};
      var late := multiset(Received(ins, start, outChan, true)) - multiset(Received(ins[..n], start, outChan, true));
      Balance(multiset(r1.log) + multiset(r1.s.queue), multiset(Received(ins[..n], start, outChan, true)),
              multiset(Regular(ins[..n])), multiset(r1.log + r2.log) + multiset(r2.s.queue), taken, late);
    } else {
      assert Regular(ins) == [] && Received(ins, start, outChan, true) == [];
    }
  }

  /** A regular tuple is either taken or counted as late. */
  lemma Accounted<X>(ins: seq<Tuple<X>>, start: int, outChan: int)
    requires ins != []
    ensures var n := |ins| - 1;
            var taken := if Taken(Run(ins[..n], start, outChan).s, ins[n]) then multiset{ins[n]} else multiset{};
            var late := multiset(Received(ins, start, outChan, true))
                      - multiset(Received(ins[..n], start, outChan, true));
            && multiset(Received(ins, start, outChan, true))
                == multiset(Received(ins[..n], start, outChan, true)) + late
            && multiset(Regular(ins)) == multiset(Regular(ins[..n])) + (taken + late)
  {
    hide Run, Late, Received;
    ReceivedSnoc(ins, start, outChan, true);
  }

  lemma Balance<Y>(m: multiset<Y>, d: multiset<Y>, r: multiset<Y>, m': multiset<Y>, t: multiset<Y>, e: multiset<Y>)
    requires m + d == r && m' == m + t
    ensures m' + (d + e) == r + (t + e)
  {
  }

  // ------------------------------------------------ order

  ghost predicate Below<X>(log: seq<Tuple<X>>, last: seq<int>) {
    |last| == 2 && forall i :: 0 <= i < |log| ==> log[i].ts <= last[0] && log[i].ts <= last[1]
  }

  /** Output and queue are in order, and nothing was output before both channels had reached it. */
  ghost predicate Ordered<X>(s: State<X>, log: seq<Tuple<X>>) {
    Sorted(log + s.queue) && Below(log, s.last)
  }

  lemma SortedInsert<X>(log: seq<Tuple<X>>, q: seq<Tuple<X>>, k: nat, mine: seq<Tuple<X>>)
    requires Sorted(log + q) && k <= |q| && |mine| <= 1
    requires mine != [] ==> (forall i :: 0 <= i < |log| ==> log[i].ts <= mine[0].ts)
    requires mine != [] ==> (forall i :: 0 <= i < k ==> q[i].ts <= mine[0].ts) && (k < |q| ==> mine[0].ts <= q[k].ts)
    ensures Sorted(log + (q[..k] + mine + q[k..]))
  {
    var a := log + q;
    var b := log + (q[..k] + mine + q[k..]);
    var m := |log| + k;
    forall i, j | 0 <= i < j < |b| ensures b[i].ts <= b[j].ts {
      if mine == [] {
        assert b == a;
      } else {
        assert forall n :: 0 <= n < |b| ==> b[n] == if n < m then a[n] else if n == m then mine[0] else a[n - 1];
        if j == m {
          assert b[i] == a[i] && (i < |log| ==> a[i] == log[i]) && (i >= |log| ==> a[i] == q[i - |log|]);
        } else if i == m {
          assert b[j] == a[j - 1] && a[m] == q[k] && a[m].ts <= a[j - 1].ts;
        } else {
          assert b[i] == a[if i < m then i else i - 1] && b[j] == a[if j < m then j else j - 1];
        }
      }
    }
  }

  lemma SortedQueue<X>(log: seq<Tuple<X>>, q: seq<Tuple<X>>)
    requires Sorted(log + q)
    ensures Sorted(q)
  {
    forall i, j | 0 <= i < j < |q| ensures q[i].ts <= q[j].ts {
      assert (log + q)[|log| + i] == q[i] && (log + q)[|log| + j] == q[j];
    }
  }

  lemma AheadOrdered<X>(s: State<X>, log: seq<Tuple<X>>, t: Tuple<X>, outChan: int)
    requires Inv(s) && Ordered(s, log) && t.chan < 2 && !Late(s, t) && (s.wait < 0 || s.wait != t.chan)
    requires Taken(s, t) ==> forall i :: 0 <= i < |s.queue| && s.queue[i].chan == t.chan ==> s.queue[i].ts <= t.ts
    ensures var r := Ahead(s, t, outChan); Ordered(r.s, log + r.log)
  {
    hide Bytes, Ahead, Sorted, Counted;
    AheadShape(s, t, outChan);
    var r := Ahead(s, t, outChan);
    var mine := if Taken(s, t) then [t] else [];
    SortedInsert(log, s.queue, |s.queue|, mine);
    assert s.queue[..|s.queue|] + mine + s.queue[|s.queue|..] == s.queue + mine;
    assert (log + r.log) + r.s.queue == log + (r.log + r.s.queue);
  }

  lemma AwaitedOrdered<X>(s: State<X>, log: seq<Tuple<X>>, t: Tuple<X>)
    requires Inv(s) && Ordered(s, log) && t.chan < 2 && !Late(s, t) && s.wait == t.chan
    ensures var r := Awaited(s, t); Ordered(r.s, log + r.log)
  {
    hide Bytes, Awaited, Sorted, Counted;
    var k := AwaitedShape(s, t);
    var r := Awaited(s, t);
    var mine := if Taken(s, t) then [t] else [];
    SortedInsert(log, s.queue, k, mine);
    assert (log + r.log) + r.s.queue == log + (r.log + r.s.queue);
    AwaitedBelow(s, log, t, k);
  }

  lemma AwaitedBelow<X>(s: State<X>, log: seq<Tuple<X>>, t: Tuple<X>, k: nat)
    requires Inv(s) && Ordered(s, log) && t.chan < 2 && !Late(s, t) && s.wait == t.chan && k <= |s.queue|
    requires forall i :: 0 <= i < k ==> s.queue[i].ts <= t.ts
    requires var r := Awaited(s, t);
             && r.log == s.queue[..k] + (if Taken(s, t) && t.ts <= r.s.last[1 - t.chan] then [t] else [])
             && r.s.last[t.chan] == t.ts && r.s.last[1 - t.chan] == s.queue[if k < |s.queue| then k else k - 1].ts
    ensures Below(log + Awaited(s, t).log, Awaited(s, t).s.last)
  {
    hide Bytes, Awaited, Counted;
    SortedQueue(log, s.queue);
    var r := Awaited(s, t);
    var top := s.queue[if k < |s.queue| then k else k - 1].ts;
    assert forall i :: 0 <= i < k ==> s.queue[i].ts <= top;
    assert s.queue[0].ts <= top;
    forall i | 0 <= i < |log + r.log| ensures (log + r.log)[i].ts <= t.ts && (log + r.log)[i].ts <= top {
      if i < |log| {
        assert (log + r.log)[i] == log[i];
      } else {
        assert (log + r.log)[i] == r.log[i - |log|];
      }
    }
  }

  lemma AcceptOrdered<X>(s: State<X>, log: seq<Tuple<X>>, t: Tuple<X>, outChan: int)
    requires Inv(s) && Ordered(s, log)
    requires Taken(s, t) ==> forall i :: 0 <= i < |s.queue| && s.queue[i].chan == t.chan ==> s.queue[i].ts <= t.ts
    ensures var r := Accept(s, t, outChan); Ordered(r.s, log + r.log)
  {
    hide Bytes, Ahead, Awaited, Sorted, Below;
    assert log + [] == log;
    if t.chan < 2 && !Late(s, t) {
      if s.wait < 0 || s.wait != t.chan {
        AheadOrdered(s, log, t, outChan);
      } else {
        AwaitedOrdered(s, log, t);
      }
    }
  }

  /** Queued tuples were accepted from their channel. */
  lemma QueuedWasReceived<X>(ins: seq<Tuple<X>>, start: int, outChan: int, t: Tuple<X>)
    ensures var r := Run(ins, start, outChan);
            t in r.log || t in r.s.queue <==> t in Received(ins, start, outChan, false)
  {
    hide Run, OfChannel, Received;
    var r := Run(ins, start, outChan);
    RunKeepsChannels(ins, start, outChan, t.chan);
    OfMember(r.log + r.s.queue, t.chan, t);
    OfMember(Received(ins, start, outChan, false), t.chan, t);
  }

  lemma {:induction false} SortedRun<X>(ins: seq<Tuple<X>>, start: int, outChan: int)
    requires ChannelSorted(Received(ins, start, outChan, false))
    ensures var r := Run(ins, start, outChan); Ordered(r.s, r.log)
  {
    if ins != [] {
      hide Inv, Accept, Late, Ordered;
      var n := |ins| - 1;
      var r1 := Run(ins[..n], start, outChan);
      var t := ins[n];
      var rs := Received(ins[..n], start, outChan, false);
      if Taken(r1.s, t) {
        ChannelPrefix(rs, t);
        forall i | 0 <= i < |r1.s.queue| && r1.s.queue[i].chan == t.chan ensures r1.s.queue[i].ts <= t.ts {
          QueuedWasReceived(ins[..n], start, outChan, r1.s.queue[i]);
          ChannelLast(rs, t, r1.s.queue[i]);
        }
      }
      SortedRun(ins[..n], start, outChan);
      RunInv(ins[..n], start, outChan);
      AcceptOrdered(r1.s, r1.log, t, outChan);
    }
  }

  lemma ChannelPrefix<X>(rs: seq<Tuple<X>>, t: Tuple<X>)
    requires ChannelSorted(rs + [t])
    ensures ChannelSorted(rs)
  {
    forall i, j | 0 <= i < j < |rs| && rs[i].chan == rs[j].chan ensures rs[i].ts <= rs[j].ts {
      assert (rs + [t])[i] == rs[i] && (rs + [t])[j] == rs[j];
    }
  }

  lemma ChannelLast<X>(rs: seq<Tuple<X>>, t: Tuple<X>, x: Tuple<X>)
    requires ChannelSorted(rs + [t]) && x in rs && x.chan == t.chan
    ensures x.ts <= t.ts
  {
    var i :| 0 <= i < |rs| && rs[i] == x;
    assert (rs + [t])[i] == x && (rs + [t])[|rs|] == t;
  }

  lemma {:induction false} SortedOf<X>(a: seq<Tuple<X>>, c: nat)
    requires Sorted(a)
    ensures Sorted(OfChannel(a, c))
  {
    if a != [] {
      var n := |a| - 1;
      SortedOf(a[..n], c);
      forall i | 0 <= i < |OfChannel(a[..n], c)| ensures OfChannel(a[..n], c)[i].ts <= a[n].ts {
        OfMember(a[..n], c, OfChannel(a[..n], c)[i]);
      }
    }
  }

  /** Two tuples of a channel appear in it in the same order. */
  lemma {:induction false} OfPositions<X>(a: seq<Tuple<X>>, i: nat) returns (p: nat)
    requires i < |a|
    ensures var o := OfChannel(a, a[i].chan); p < |o| && o[p] == a[i] && p == |OfChannel(a[..i], a[i].chan)|
  {
    var n := |a| - 1;
    if i < n {
      p := OfPositions(a[..n], i);
      assert a[..n][..i] == a[..i];
    } else {
      p := |OfChannel(a[..n], a[i].chan)|;
    }
  }

  lemma {:induction false} OfLonger<X>(a: seq<Tuple<X>>, i: nat, j: nat)
    requires i < j < |a|
    ensures |OfChannel(a[..i], a[i].chan)| < |OfChannel(a[..j], a[i].chan)|
  {
    assert a[..j][..j - 1] == a[..j - 1] && a[..j][j - 1] == a[j - 1];
    if i < j - 1 {
      OfLonger(a, i, j - 1);
    }
  }

  lemma ChannelsSorted<X>(a: seq<Tuple<X>>)
    requires forall i :: 0 <= i < |a| ==> Sorted(OfChannel(a, a[i].chan))
    ensures ChannelSorted(a)
  {
    hide OfChannel;
    forall i, j | 0 <= i < j < |a| && a[i].chan == a[j].chan ensures a[i].ts <= a[j].ts {
      var p := OfPositions(a, i);
      var q := OfPositions(a, j);
      OfLonger(a, i, j);
      assert Sorted(OfChannel(a, a[i].chan));
    }
  }

  /** The output followed by the queue is in timestamp order if and only if each channel's accepted tuples are. */
  lemma OrderedIffChannelsOrdered<X>(ins: seq<Tuple<X>>, start: int, outChan: int)
    ensures var r := Run(ins, start, outChan);
            Sorted(r.log + r.s.queue) <==> ChannelSorted(Received(ins, start, outChan, false))
  {
    hide Run, Received, OfChannel, Sorted, ChannelSorted;
    var r := Run(ins, start, outChan);
    var rs := Received(ins, start, outChan, false);
    if ChannelSorted(rs) {
      SortedRun(ins, start, outChan);
    }
    if Sorted(r.log + r.s.queue) {
      forall i | 0 <= i < |rs| ensures Sorted(OfChannel(rs, rs[i].chan)) {
        SortedOf(r.log + r.s.queue, rs[i].chan);
        RunKeepsChannels(ins, start, outChan, rs[i].chan);
      }
      ChannelsSorted(rs);
    }
  }

  // ------------------------------------------------ how far the output has got

  /** Every posted timestamp came from a tuple of its channel. */
  ghost predicate Posted<X>(ins: seq<Tuple<X>>, start: int, last: seq<int>) {
    |last| == 2 && forall c: nat :: c < 2 ==> last[c] == start || From(ins, c, last[c])
  }

  ghost predicate From<X>(ins: seq<Tuple<X>>, c: nat, ts: int) {
    exists i :: 0 <= i < |ins| && ins[i].chan == c && ins[i].ts == ts
  }

  lemma FromPrefix<X>(ins: seq<Tuple<X>>, t: Tuple<X>, c: nat, ts: int)
    ensures From(ins + [t], c, ts) <==> From(ins, c, ts) || (t.chan == c && t.ts == ts)
  {
    if i :| 0 <= i < |ins| && ins[i].chan == c && ins[i].ts == ts { assert (ins + [t])[i] == ins[i]; }
    assert (ins + [t])[|ins|] == t;
  }

  lemma {:induction false} ReceivedFrom<X>(ins: seq<Tuple<X>>, start: int, outChan: int, t: Tuple<X>)
    requires t in Received(ins, start, outChan, false)
    ensures t in ins && !t.temp && t.chan < 2
  {
    var n := |ins| - 1;
    if t in Received(ins[..n], start, outChan, false) {
      ReceivedFrom(ins[..n], start, outChan, t);
    } else {
      assert t == ins[n];
    }
  }

  lemma AcceptPosts<X>(s: State<X>, t: Tuple<X>, outChan: int, c: nat)
    requires Inv(s) && c < 2
    ensures var l := Accept(s, t, outChan).s.last[c];
            l == s.last[c] || (t.chan == c && t.ts == l)
                || (exists i :: 0 <= i < |s.queue| && s.queue[i].chan == c && s.queue[i].ts == l)
  {
    hide Bytes, Purge, Awaited;
    if t.chan < 2 && !Late(s, t) && s.wait == t.chan {
      var k := AwaitedShape(s, t);
      var j := if k < |s.queue| then k else k - 1;
      assert s.queue[j].chan == 1 - t.chan;
    }
  }

  lemma {:induction false} RunPosted<X>(ins: seq<Tuple<X>>, start: int, outChan: int)
    ensures Posted(ins, start, Run(ins, start, outChan).s.last)
  {
    if ins != [] {
      hide Inv, Accept, From, Received;
      var n := |ins| - 1;
      var s := Run(ins[..n], start, outChan).s;
      RunPosted(ins[..n], start, outChan);
      RunInv(ins[..n], start, outChan);
      assert ins == ins[..n] + [ins[n]];
      forall c: nat | c < 2
        ensures var l := Accept(s, ins[n], outChan).s.last[c]; l == start || From(ins, c, l)
      {
        var l := Accept(s, ins[n], outChan).s.last[c];
        AcceptPosts(s, ins[n], outChan, c);
        FromPrefix(ins[..n], ins[n], c, l);
        if i :| 0 <= i < |s.queue| && s.queue[i].chan == c && s.queue[i].ts == l {
          QueuedFrom(ins[..n], start, outChan, i);
        }
      }
    }
  }

  lemma QueuedFrom<X>(ins: seq<Tuple<X>>, start: int, outChan: int, i: nat)
    requires i < |Run(ins, start, outChan).s.queue|
    ensures var t := Run(ins, start, outChan).s.queue[i]; From(ins, t.chan, t.ts)
  {
    hide Run, Received;
    var t := Run(ins, start, outChan).s.queue[i];
    QueuedWasReceived(ins, start, outChan, t);
    ReceivedFrom(ins, start, outChan, t);
  }

  /** With timestamps non-decreasing on each channel, status tuples included, nothing is dropped. */
  lemma {:induction false} NothingDropped<X>(ins: seq<Tuple<X>>, start: int, outChan: int)
    requires ChannelSorted(ins) && forall i :: 0 <= i < |ins| ==> ins[i].ts >= start
    ensures Received(ins, start, outChan, true) == []
    ensures Received(ins, start, outChan, false) == Regular(ins)
  {
    if ins != [] {
      var n := |ins| - 1;
      assert ins == ins[..n] + [ins[n]];
      ChannelPrefix(ins[..n], ins[n]);
      NothingDropped(ins[..n], start, outChan);
      hide Run, Received;
      ReceivedSnoc(ins, start, outChan, true);
      ReceivedSnoc(ins, start, outChan, false);
      RunPosted(ins[..n], start, outChan);
      if ins[n].chan < 2 {
        assert Run(ins[..n], start, outChan).s.last[ins[n].chan] <= ins[n].ts;
      }
    }
  }

  lemma {:induction false} RegularSorted<X>(ins: seq<Tuple<X>>)
    requires ChannelSorted(ins)
    ensures ChannelSorted(Regular(ins))
  {
    if ins != [] {
      var n := |ins| - 1;
      assert ins == ins[..n] + [ins[n]];
      ChannelPrefix(ins[..n], ins[n]);
      RegularSorted(ins[..n]);
      forall t | t in Regular(ins[..n]) && t.chan == ins[n].chan ensures t.ts <= ins[n].ts {
        RegularFrom(ins[..n], t);
        ChannelLast(ins[..n], ins[n], t);
      }
    }
  }

  lemma {:induction false} RegularFrom<X>(ins: seq<Tuple<X>>, t: Tuple<X>)
    requires t in Regular(ins)
    ensures t in ins
  {
    var n := |ins| - 1;
    if t in Regular(ins[..n]) {
      RegularFrom(ins[..n], t);
    } else {
      assert t == ins[n];
    }
  }

  /**
   * For inputs non-decreasing on each channel: the output is sorted, output and queue are all regular tuples received
   * (per channel in arrival order), and everything output is strictly earlier than everything still queued.
   */
  lemma SortedMerge<X>(ins: seq<Tuple<X>>, start: int, outChan: int)
    requires ChannelSorted(ins) && forall i :: 0 <= i < |ins| ==> ins[i].ts >= start
    ensures var r := Run(ins, start, outChan);
            && Sorted(r.log) && Sorted(r.log + r.s.queue)
            && multiset(r.log) + multiset(r.s.queue) == multiset(Regular(ins))
            && (forall c: nat :: OfChannel(r.log + r.s.queue, c) == OfChannel(Regular(ins), c))
            && (forall i, j :: 0 <= i < |r.log| && 0 <= j < |r.s.queue| ==> r.log[i].ts < r.s.queue[j].ts)
  {
    hide Run, Received, Regular, OfChannel;
    var r := Run(ins, start, outChan);
    NothingDropped(ins, start, outChan);
    RunConserves(ins, start, outChan);
    RegularSorted(ins);
    SortedRun(ins, start, outChan);
    forall c: nat ensures OfChannel(r.log + r.s.queue, c) == OfChannel(Regular(ins), c) {
      RunKeepsChannels(ins, start, outChan, c);
    }
    RunInv(ins, start, outChan);
    SortedQueue(r.log, r.s.queue);
    assert r.log == (r.log + r.s.queue)[..|r.log|];
  }

  /** A tuple is output only when the other channel has reached its timestamp, by a regular or a status tuple. */
  lemma OutputIsDue<X>(ins: seq<Tuple<X>>, start: int, outChan: int, i: nat)
    requires ChannelSorted(Received(ins, start, outChan, false)) && i < |Run(ins, start, outChan).log|
    ensures var t := Run(ins, start, outChan).log[i];
            t.ts <= start || exists j :: 0 <= j < |ins| && ins[j].chan == 1 - t.chan && t.ts <= ins[j].ts
  {
    hide Run, Received, Sorted;
    SortedRun(ins, start, outChan);
    RunPosted(ins, start, outChan);
    var r := Run(ins, start, outChan);
    var t := r.log[i];
    QueuedWasReceived(ins, start, outChan, t);
    ReceivedFrom(ins, start, outChan, t);
    var c := 1 - t.chan;
    assert t.ts <= r.s.last[c];
  }

  /** The queue holds a single channel and the operator waits for the other one exactly when the queue is not empty. */
  lemma OneQueue<X>(ins: seq<Tuple<X>>, start: int, outChan: int)
    ensures var s := Run(ins, start, outChan).s;
            && s.wait == (if s.queue == [] then -1 else 1 - s.queue[0].chan)
            && (forall i :: 0 <= i < |s.queue| ==> s.queue[i].chan == s.queue[0].chan < 2)
            && s.qsize == |s.queue| && s.mem == Bytes(s.queue) % WORD
  {
    hide Run, Bytes;
    RunInv(ins, start, outChan);
  }

  /**
   * The tuples of legal channels, status tuples included, that arrived behind the last posted timestamp of their
   * channel.
   */
  function LateCount<X>(ins: seq<Tuple<X>>, start: int, outChan: int): nat {
    if ins == [] then 0 else
    var n := |ins| - 1;
    LateCount(ins[..n], start, outChan) + (if Late(Run(ins[..n], start, outChan).s, ins[n]) then 1 else 0)
  }

  lemma {:induction false} PurgeKeepsDropped<X>(s: State<X>, c: nat)
    requires |s.last| == 2 && c < 2
    ensures Purge(s, c).s.dropped == s.dropped
    decreases |s.queue|
  {
    if s.queue != [] && s.queue[0].ts <= s.last[1 - c] {
      var h := s.queue[0];
      var s1 := Post(s.(queue := s.queue[1..], qsize := s.qsize - 1, mem := (s.mem - h.size) % WORD), h.chan, h.ts);
      if s1.queue != [] {
        PurgeKeepsDropped(Post(s1, s1.queue[0].chan, s1.queue[0].ts), c);
      }
    }
  }

  /** dropped_cnt counts exactly the late tuples, modulo the width of the counter. */
  lemma {:induction false} RunDropped<X>(ins: seq<Tuple<X>>, start: int, outChan: int)
    ensures Run(ins, start, outChan).s.dropped == LateCount(ins, start, outChan) % WORD
  {
    if ins != [] {
      var n := |ins| - 1;
      RunDropped(ins[..n], start, outChan);
      hide Run, Purge, LateCount;
      var s := Run(ins[..n], start, outChan).s;
      AcceptDropped(s, ins[n], outChan);
      RunSnoc(ins, start, outChan);
      ModWord(LateCount(ins[..n], start, outChan), 1);
    }
  }

  lemma RunSnoc<X>(ins: seq<Tuple<X>>, start: int, outChan: int)
    requires ins != []
    ensures var n := |ins| - 1;
            var s := Run(ins[..n], start, outChan).s;
            && Run(ins, start, outChan).s == Accept(s, ins[n], outChan).s
            && LateCount(ins, start, outChan)
                == LateCount(ins[..n], start, outChan) + (if Late(s, ins[n]) then 1 else 0)
  {
  }

  lemma AcceptDropped<X>(s: State<X>, t: Tuple<X>, outChan: int)
    requires |s.last| == 2
    ensures Accept(s, t, outChan).s.dropped == if Late(s, t) then (s.dropped + 1) % WORD else s.dropped
  {
    hide Purge;
    if t.chan < 2 {
      PurgeKeepsDropped(Post(s, t.chan, t.ts), 1 - t.chan);
    }
  }
}
