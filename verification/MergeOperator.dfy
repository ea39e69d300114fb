/** The merge operator with its queue and counters updated in place. */
module MergeOperators {
  import opened Merge

  class MergeOperator<X, Y> {
    const xform: X -> Y
    const outChan: nat
    var wait: int
    var queue: seq<Tuple<X>>
    var qsize: int
    var last: seq<int>
    var mem: int
    var dropped: int

    function Abs(): State<X>
      reads this
    {
      State(wait, queue, qsize, last, mem, dropped)
    }

    constructor (xform: X -> Y, outChan: nat, start: int)
      ensures Abs() == Init(start) && this.xform == xform && this.outChan == outChan
    {
      this.xform, this.outChan := xform, outChan;
      wait, queue, qsize, last, mem, dropped := -1, [], 0, [start, start], 0, 0;
    }

    /** The tuple as it leaves the operator. */
    function Sent(t: Tuple<X>): Tuple<Y> {
      Tuple(outChan, t.ts, t.temp, t.size, xform(t.x))
    }

    function AllSent(ts: seq<Tuple<X>>): seq<Tuple<Y>> {
      seq(|ts|, i requires 0 <= i < |ts| => Sent(ts[i]))
    }

    lemma SentNone()
      ensures AllSent([]) == []
    {
    }

    lemma SentSnoc(ts: seq<Tuple<X>>, t: Tuple<X>)
      ensures AllSent(ts + [t]) == AllSent(ts) + [Sent(t)]
    {
    }

    method AppendTuple(t: Tuple<X>)
      modifies this`queue, this`qsize, this`mem
      ensures Abs() == Append(old(Abs()), t)
    {
      queue, qsize, mem := queue + [t], qsize + 1, (mem + t.size) % WORD;
    }

    method UpdateStored(t: Tuple<X>)
      requires |last| == 2
      modifies this`last
      ensures Abs() == Post(old(Abs()), t.chan, t.ts)
    {
      last := last[Slot(t.chan) := t.ts];
    }

    method PopFront()
      requires queue != [] && |last| == 2
      modifies this`queue, this`qsize, this`mem, this`last
      ensures var s, h := old(Abs()), old(queue)[0];
              var s1 := s.(queue := s.queue[1..], qsize := s.qsize - 1, mem := (s.mem - h.size) % WORD);
              Abs() == Post(s1, h.chan, h.ts)
    {
      var top := queue[0];
      queue, qsize, mem := queue[1..], qsize - 1, (mem - top.size) % WORD;
      UpdateStored(top);
    }

    method PurgeQueue(c: nat) returns (out: seq<Tuple<Y>>)
      requires c < 2 && |last| == 2
      modifies this`queue, this`qsize, this`mem, this`last
      ensures var r := Purge(old(Abs()), c);
              Abs() == r.s && out == AllSent(r.log)
    {
      hide Purge, AllSent;
      out := [];
      ghost var log: seq<Tuple<X>> := [];
      assert out == AllSent(log) by { SentNone(); }
      assert [] + Purge(Abs(), c).log == Purge(Abs(), c).log;
      while |queue| > 0 && queue[0].ts <= last[1 - c]
        invariant |last| == 2
        invariant out == AllSent(log)
        invariant Purge(old(Abs()), c) == Result(Purge(Abs(), c).s, log + Purge(Abs(), c).log)
        decreases |queue|
      {
        var top := queue[0];
        PurgeFirst(Abs(), c, log);
        SentSnoc(log, top);
        PopFront();
        out := out + [Sent(top)];
        log := log + [top];
        if |queue| == 0 {
          break;
        }
        UpdateStored(queue[0]);
      }
      PurgeDone(Abs(), c, log);
    }

    /** A tuple that the queue is not waiting for. */
    method TakeAhead(t: Tuple<X>) returns (out: seq<Tuple<Y>>)
      requires |last| == 2 && t.chan < 2
      modifies this
      ensures var r := Ahead(old(Abs()), t, outChan);
              Abs() == r.s && out == AllSent(r.log)
    {
      out := [];
      if wait < 0 { UpdateStored(t); }
      var chan: int := t.chan;
      if !t.temp {
        if t.ts <= last[1 - t.chan] {
          out := [Sent(t)];
          chan := outChan;
        } else {
          AppendTuple(t);
        }
      }
      wait := 1 - chan;
    }

    /** A tuple of the awaited channel. */
    method TakeAwaited(t: Tuple<X>) returns (out: seq<Tuple<Y>>)
      requires |last| == 2 && t.chan < 2
      modifies this
      ensures var r := Awaited(old(Abs()), t);
              Abs() == r.s && out == AllSent(r.log)
    {
      hide Purge, AllSent;
      UpdateStored(t);
      ghost var log := Purge(Abs(), 1 - t.chan).log;
      out := PurgeQueue(1 - t.chan);
      SentSnoc(log, t);
      assert log + [] == log;
      if t.ts <= last[1 - t.chan] {
        if !t.temp { out := out + [Sent(t)]; }
      } else {
        if !t.temp { AppendTuple(t); }
        wait := 1 - t.chan;
      }
    }

    method AcceptTuple(t: Tuple<X>) returns (out: seq<Tuple<Y>>)
      requires |last| == 2
      modifies this
      ensures var r := Accept(old(Abs()), t, outChan);
              Abs() == r.s && out == AllSent(r.log)
    {
      hide Ahead, Awaited, AllSent;
      SentNone();
      out := [];
      if t.chan > 1 {
        return;
      }
      if t.ts < last[t.chan] {
        dropped := (dropped + 1) % WORD;
        return;
      }
      if wait < 0 || wait != t.chan {
        out := TakeAhead(t);
      } else {
        out := TakeAwaited(t);
      }
      if qsize == 0 { wait := -1; }
    }
  }

  /** One turn of the purge loop. */
  lemma PurgeFirst<X>(s: State<X>, c: nat, log: seq<Tuple<X>>)
    requires |s.last| == 2 && c < 2 && s.queue != [] && s.queue[0].ts <= s.last[1 - c]
    ensures var h := s.queue[0];
            var s0 := s.(queue := s.queue[1..], qsize := s.qsize - 1, mem := (s.mem - h.size) % WORD);
            var s1 := Post(s0, h.chan, h.ts);
            var s2 := if s1.queue == [] then s1 else Post(s1, s1.queue[0].chan, s1.queue[0].ts);
            Purge(s, c).s == Purge(s2, c).s && log + Purge(s, c).log == (log + [h]) + Purge(s2, c).log
  {
  }

  lemma PurgeDone<X>(s: State<X>, c: nat, log: seq<Tuple<X>>)
    requires |s.last| == 2 && c < 2 && (s.queue == [] || s.queue[0].ts > s.last[1 - c])
    ensures Purge(s, c).s == s && log + Purge(s, c).log == log
  {
  }
}
