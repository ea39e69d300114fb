/** The two-way order-preserving merge, which keeps a single queue for whichever channel is ahead. */
module Merge {

  /** A tuple with its merge timestamp; `temp` marks temporal status tuples. */
  datatype Tuple<+X> = Tuple(chan: nat, ts: int, temp: bool, size: nat, x: X)

  /** `last` is the last posted timestamp of each channel; `mem` and `dropped` are 32-bit counters. */
  datatype State<X> = State(wait: int, queue: seq<Tuple<X>>, qsize: int, last: seq<int>, mem: int, dropped: int)

  datatype Result<X> = Result(s: State<X>, log: seq<Tuple<X>>)

  const WORD: int := 0x1_0000_0000

  function Init<X>(start: int): State<X> {
    State(-1, [], 0, [start, start], 0, 0)
  }

  /** The slot of a channel in the stored status: channel 0, or anything else. */
  function Slot(c: nat): (i: nat)
    ensures i < 2
  {
    if c == 0 then 0 else 1
  }

  function Post<X>(s: State<X>, c: nat, ts: int): (r: State<X>)
    requires |s.last| == 2
    ensures |r.last| == 2
  {
    s.(last := s.last[Slot(c) := ts])
  }

  function Append<X>(s: State<X>, t: Tuple<X>): State<X> {
    s.(queue := s.queue + [t], qsize := s.qsize + 1, mem := (s.mem + t.size) % WORD)
  }

  /** Release the queued tuples of channel c that are not later than the other channel's last timestamp. */
  function Purge<X>(s: State<X>, c: nat): (r: Result<X>)
    requires |s.last| == 2 && c < 2
    ensures |r.s.last| == 2
    decreases |s.queue|
  {
    if s.queue == [] || s.queue[0].ts > s.last[1 - c] then Result(s, []) else
    var h := s.queue[0];
    var s1 := Post(s.(queue := s.queue[1..], qsize := s.qsize - 1, mem := (s.mem - h.size) % WORD), h.chan, h.ts);
    if s1.queue == [] then Result(s1, [h]) else
    var r := Purge(Post(s1, s1.queue[0].chan, s1.queue[0].ts), c);
    Result(r.s, [h] + r.log)
  }

  /** A tuple that the queue is not waiting for: post it only when nothing is queued. */
  function Ahead<X>(s: State<X>, t: Tuple<X>, outChan: int): (r: Result<X>)
    requires |s.last| == 2 && t.chan < 2
    ensures |r.s.last| == 2
  {
    var s1 := if s.wait < 0 then Post(s, t.chan, t.ts) else s;
    if t.temp then Result(s1.(wait := 1 - t.chan), [])
    else if t.ts <= s1.last[1 - t.chan] then Result(s1.(wait := 1 - outChan), [t])
    else Result(Append(s1, t).(wait := 1 - t.chan), [])
  }

  /** A tuple of the awaited channel: it releases queued tuples of the other one. */
  function Awaited<X>(s: State<X>, t: Tuple<X>): (r: Result<X>)
    requires |s.last| == 2 && t.chan < 2
    ensures |r.s.last| == 2
  {
    var r := Purge(Post(s, t.chan, t.ts), 1 - t.chan);
    if t.ts <= r.s.last[1 - t.chan] then Result(r.s, r.log + (if t.temp then [] else [t]))
    else Result((if t.temp then r.s else Append(r.s, t)).(wait := 1 - t.chan), r.log)
  }

  function Late<X>(s: State<X>, t: Tuple<X>): bool
    requires |s.last| == 2
  {
    t.chan < 2 && t.ts < s.last[t.chan]
  }

  function Accept<X>(s: State<X>, t: Tuple<X>, outChan: int): (r: Result<X>)
    requires |s.last| == 2
    ensures |r.s.last| == 2
  {
    if t.chan > 1 then Result(s, [])
    else if Late(s, t) then Result(s.(dropped := (s.dropped + 1) % WORD), [])
    else
      var r := if s.wait < 0 || s.wait != t.chan then Ahead(s, t, outChan) else Awaited(s, t);
      Result(if r.s.qsize == 0 then r.s.(wait := -1) else r.s, r.log)
  }

  function Run<X>(ins: seq<Tuple<X>>, start: int, outChan: int): (r: Result<X>)
    ensures |r.s.last| == 2
  {
    if ins == [] then Result(Init(start), []) else
    var r1 := Run(ins[..|ins| - 1], start, outChan);
    var r2 := Accept(r1.s, ins[|ins| - 1], outChan);
    Result(r2.s, r1.log + r2.log)
  }

  // ------------------------------------------------ what a run receives

  /** The regular tuples of legal channels that were not dropped, or (late) the ones that were. */
  function Received<X>(ins: seq<Tuple<X>>, start: int, outChan: int, late: bool): seq<Tuple<X>> {
    if ins == [] then [] else
    var n := |ins| - 1;
    var t := ins[n];
    var front := Received(ins[..n], start, outChan, late);
    if t.chan < 2 && !t.temp && Late(Run(ins[..n], start, outChan).s, t) == late then front + [t] else front
  }

  /** The regular tuples of legal channels. */
  function Regular<X>(ins: seq<Tuple<X>>): seq<Tuple<X>> {
    if ins == [] then [] else
    var t := ins[|ins| - 1];
    Regular(ins[..|ins| - 1]) + (if t.chan < 2 && !t.temp then [t] else [])
  }

  function OfChannel<X>(ts: seq<Tuple<X>>, c: nat): seq<Tuple<X>> {
    if ts == [] then [] else OfChannel(ts[..|ts| - 1], c) + (if ts[|ts| - 1].chan == c then [ts[|ts| - 1]] else [])
  }

  ghost predicate Sorted<X>(ts: seq<Tuple<X>>) {
    forall i, j :: 0 <= i < j < |ts| ==> ts[i].ts <= ts[j].ts
  }

  /** The timestamps of each channel do not decrease. */
  ghost predicate ChannelSorted<X>(ts: seq<Tuple<X>>) {
    forall i, j :: 0 <= i < j < |ts| && ts[i].chan == ts[j].chan ==> ts[i].ts <= ts[j].ts
  }

  function Bytes<X>(q: seq<Tuple<X>>): int {
    if q == [] then 0 else q[0].size + Bytes(q[1..])
  }
}
