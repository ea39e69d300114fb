/** The out-of-order group-by operator: a list of window tables, flushed one group per tuple or a window at a time. */
module OopGroupBy {
  import opened Options
  import opened Grouping
  import T = Table

  /** A data tuple, or a punctuation carrying the temporal group-by value of a status tuple. */
  datatype Input<X> = Data(x: X) | Punct(w: int)

  /**
   * `tables[k]` collects window minWid + k; `pos` is the index of flush_pos in the first table.  lastGb, lastFlushedGb
   * and needs are the functor's last punctuation, the one before it, and its flush indicator.
   */
  datatype State<G, A> = State(
    tables: seq<T.Table<G, A>>,
    minWid: int,
    maxWid: int,
    finished: bool,
    pos: nat,
    lastGb: int,
    lastFlushedGb: int,
    needs: bool)

  datatype Result<G, A> = Result(s: State<G, A>, log: seq<T.Item<G, A>>)

  function Init<G, A>(): State<G, A> {
    State([], 0, 0, true, 0, 0, 0, false)
  }

  /** Finish with the first table: drop it and move on to the next window. */
  function DropFirst<G, A>(s: State<G, A>): State<G, A>
    requires s.tables != []
  {
    s.(tables := s.tables[1..], minWid := s.minWid + 1, pos := 0)
  }

  /** Emit at most one group of the first table; recycle the table once it is exhausted. */
  function PartialFlush<G, A>(s: State<G, A>): Result<G, A> {
    if s.tables == [] then Result(s.(finished := true), []) else
    var items := T.Items(s.tables[0]);
    var emit := s.pos < |items|;
    var s1 := if emit then s.(pos := s.pos + 1) else s;
    var log := if emit then [items[s.pos]] else [];
    if s1.pos < |items| then Result(s1, log) else
    var s2 := DropFirst(s1);
    Result(s2.(finished := !(s2.lastGb > s2.minWid && s2.tables != [])), log)
  }

  /** Flush whole windows from the front, the first one from flush_pos on. */
  function FlushWindows<G, A>(s: State<G, A>, num: int): Result<G, A>
    decreases |s.tables|
  {
    if num <= 0 || s.tables == [] then Result(s, []) else
    var items := T.Items(s.tables[0]);
    var r := FlushWindows(DropFirst(s), num - 1);
    Result(r.s, (if s.pos <= |items| then items[s.pos..] else []) + r.log)
  }

  function FlushOld<G, A>(s: State<G, A>): Result<G, A> {
    var r := FlushWindows(s, s.lastGb - s.minWid);
    Result(r.s.(finished := true), r.log)
  }

  /** A finished flush starts again at the beginning of the first table, if there is one. */
  function FromStart<G, A>(s: State<G, A>): State<G, A> {
    if s.finished && s.tables != [] then s.(pos := 0) else s
  }

  /** The external flush of everything. */
  function FlushAll<G, A>(s: State<G, A>): Result<G, A> {
    var r := FlushWindows(FromStart(s), |s.tables|);
    Result(r.s.(finished := true), r.log)
  }

  function Empties<G, A>(n: int): seq<T.Table<G, A>> {
    if n <= 0 then [] else Empties(n - 1) + [T.Empty(T.BUCKETS)]
  }

  /** Make room for window w: at the start, before the first table, or after the last one. */
  function Extend<G, A>(s: State<G, A>, w: int): State<G, A> {
    var s1 := if s.maxWid == 0 && s.minWid == 0
              then s.(tables := s.tables + [T.Empty(T.BUCKETS)], minWid := w, maxWid := w) else s;
    var s2 := if w < s1.minWid then s1.(tables := Empties(s1.minWid - w) + s1.tables, minWid := w) else s1;
    if w > s2.maxWid then s2.(tables := s2.tables + Empties(w - s2.maxWid), maxWid := w) else s2
  }

  /** Account for tuple x in table t. */
  function Absorb<X, G(==), A, O>(f: Functor<X, G, A, O>, t: T.Table<G, A>, x: X, g: G): T.Table<G, A>
    requires |t.chains| > 0
  {
    if T.Has(t, f.hash, g) then T.Put(t, f.hash, g, f.update(x, T.Get(t, f.hash, g)))
    else T.Insert(t, f.hash, g, f.create(x))
  }

  function AddTuple<X, G(==), A, O>(f: Functor<X, G, A, O>, s: State<G, A>, x: X, g: G): State<G, A> {
    var s1 := Extend(s, f.window(g));
    var k := f.window(g) - s1.minWid;
    if 0 <= k < |s1.tables| && |s1.tables[k].chains| > 0
    then s1.(tables := s1.tables[k := Absorb(f, s1.tables[k], x, g)], needs := false) else s1
  }

  /** The functor's bookkeeping for a punctuation. */
  function Note<G, A>(s: State<G, A>, w: int): State<G, A> {
    if w == s.lastGb then s.(needs := false)
    else s.(lastFlushedGb := s.lastGb, lastGb := w, needs := if s.lastGb > 0 then true else s.needs)
  }

  /**
   * The test of the table index of the punctuation before the last.  For a window below min_wid the index is computed
   * by negating a difference of the temporal type: a 32-bit unsigned difference stays positive, any other becomes
   * negative.
   */
  predicate NotBehind<X, G, A, O>(f: Functor<X, G, A, O>, s: State<G, A>) {
    s.lastFlushedGb >= s.minWid || f.unsigned32
  }

  /** A punctuation: close what the previous flush left, then start flushing the windows it ends. */
  function AddPunct<X, G, A, O>(f: Functor<X, G, A, O>, s0: State<G, A>, w: int): Result<G, A> {
    var s := Note(s0, w);
    if s.tables != [] && s.needs && NotBehind(f, s) then
      var r := if s.finished then Result(s, []) else FlushOld(s);
      var s1 := if r.s.lastGb > r.s.minWid && r.s.tables != [] then r.s.(finished := false) else r.s;
      Result(if s1.tables != [] then s1.(pos := 0) else s1, r.log)
    else Result(s, [])
  }

  function Step<X, G(==), A, O>(f: Functor<X, G, A, O>, s: State<G, A>, i: Input<X>): Result<G, A> {
    var r := if s.finished then Result(s, []) else PartialFlush(s);
    match i
    case Punct(w) => var r2 := AddPunct(f, r.s, w); Result(r2.s, r.log + r2.log)
    case Data(x) =>
      if f.group(x).None? then Result(r.s.(needs := false), r.log)
      else Result(AddTuple(f, r.s, x, f.group(x).value), r.log)
  }

  function Run<X, G(==), A, O>(f: Functor<X, G, A, O>, ins: seq<Input<X>>): Result<G, A> {
    if ins == [] then Result(Init(), []) else
    var r1 := Run(f, ins[..|ins| - 1]);
    var r2 := Step(f, r1.s, ins[|ins| - 1]);
    Result(r2.s, r1.log + r2.log)
  }

  // ------------------------------------------------ the hypotheses on the input

  function LastPunct<X>(ins: seq<Input<X>>): int {
    if ins == [] then 0 else
    match ins[|ins| - 1]
    case Punct(w) => w
    case Data(_) => LastPunct(ins[..|ins| - 1])
  }

  /** Positive windows, non-decreasing punctuations, and no tuple below the last punctuation. */
  predicate Timely<X, G, A, O>(f: Functor<X, G, A, O>, last: int, i: Input<X>) {
    match i
    case Punct(w) => last <= w
    case Data(x) => f.group(x).Some? ==> f.window(f.group(x).value) >= 1 && f.window(f.group(x).value) >= last
  }

  predicate TimelyRun<X, G, A, O>(f: Functor<X, G, A, O>, ins: seq<Input<X>>) {
    ins == [] || (TimelyRun(f, ins[..|ins| - 1]) && Timely(f, LastPunct(ins[..|ins| - 1]), ins[|ins| - 1]))
  }

  function Tuples<X>(ins: seq<Input<X>>): seq<X> {
    if ins == [] then [] else
    match ins[|ins| - 1]
    case Punct(_) => Tuples(ins[..|ins| - 1])
    case Data(x) => Tuples(ins[..|ins| - 1]) + [x]
  }
}
