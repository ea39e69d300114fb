/** The out-of-order group-by operator with its window tables updated in place. */
module OopOperators {
  import opened Options
  import opened Grouping
  import opened OopGroupBy
  import T = Table

  /** Groups output for one input tuple while a flush is under way. */
  const FLUSH_PER_TUPLE: nat := 1

  class OopOperator<X, G(==), A, O> {
    const f: Functor<X, G, A, O>
    var tables: seq<T.Table<G, A>>
    var minWid: int
    var maxWid: int
    var finished: bool
    var pos: nat
    var lastGb: int
    var lastFlushedGb: int
    var needs: bool

    function Abs(): State<G, A>
      reads this
    {
      State(tables, minWid, maxWid, finished, pos, lastGb, lastFlushedGb, needs)
    }

    constructor (f: Functor<X, G, A, O>)
      ensures Abs() == Init() && this.f == f
    {
      this.f := f;
      tables, minWid, maxWid, finished, pos := [], 0, 0, true, 0;
      lastGb, lastFlushedGb, needs := 0, 0, false;
    }

    /** Output groups of the first table from flush_pos on, at most `limit` of them. */
    method Emit(limit: nat) returns (out: seq<O>)
      requires tables != []
      modifies this`pos
      ensures var items := T.Items(tables[0]);
              var n := if old(pos) + limit <= |items| then limit
                  else if old(pos) <= |items| then |items| - old(pos) else 0;
              && pos == old(pos) + n && old(pos) <= pos && (n > 0 ==> pos <= |items|)
              && out == (if n > 0 then Outputs(f, items[old(pos)..pos]) else [])
    {
      hide T.Items, Outputs;
      var items := T.Items(tables[0]);
      var i := 0;
      out := [];
      OutputsNil(f);
      while pos < |items| && i < limit
        invariant pos == old(pos) + i && i <= limit && (i > 0 ==> pos <= |items|)
        invariant out == if i > 0 then Outputs(f, items[old(pos)..pos]) else []
      {
        var made := f.output(items[pos].key, items[pos].val);
        assert items[old(pos)..pos + 1] == items[old(pos)..pos] + [items[pos]];
        OutputsSnoc(f, items[old(pos)..pos], items[pos]);
        assert i == 0 ==> items[old(pos)..pos] == [];
        if made.Some? { out := out + [made.value]; }
        pos, i := pos + 1, i + 1;
      }
    }

    /** Drop the first table and move to the beginning of the next. */
    method Recycle()
      requires tables != []
      modifies this`tables, this`minWid, this`pos
      ensures Abs() == DropFirst(old(Abs()))
    {
      tables, minWid, pos := tables[1..], minWid + 1, 0;
    }

    method PartialFlush() returns (out: seq<O>)
      modifies this
      ensures var r := OopGroupBy.PartialFlush(old(Abs()));
              Abs() == r.s && out == Outputs(f, r.log)
    {
      hide T.Items, Outputs;
      OutputsNil(f);
      if |tables| == 0 {
        finished := true;
        return [];
      }
      var size := |T.Items(tables[0])|;
      out := Emit(FLUSH_PER_TUPLE);
      if old(pos) < size {
        assert T.Items(tables[0])[old(pos)..pos] == [T.Items(tables[0])[old(pos)]];
      }
      if pos >= size {
        Recycle();
        finished := !(lastGb > minWid && |tables| > 0);
      }
    }

    /** Output the rest of the first table and drop it. */
    method FlushFirst() returns (out: seq<O>)
      requires tables != []
      modifies this`tables, this`minWid, this`pos
      ensures Abs() == DropFirst(old(Abs()))
      ensures var items := T.Items(old(tables)[0]);
              out == Outputs(f, if old(pos) <= |items| then items[old(pos)..] else [])
    {
      hide T.Items, Outputs;
      OutputsNil(f);
      var size := |T.Items(tables[0])|;
      if pos <= size {
        assert T.Items(tables[0])[pos..] == T.Items(tables[0])[pos..size];
        assert pos == size ==> T.Items(tables[0])[pos..] == [];
      }
      out := Emit(size);
      Recycle();
    }

    method FlushOld() returns (out: seq<O>)
      modifies this
      ensures var r := OopGroupBy.FlushOld(old(Abs()));
              Abs() == r.s && out == Outputs(f, r.log)
    {
      hide T.Items, Outputs, FlushWindows;
      var num := lastGb - minWid;
      var i := 0;
      out := [];
      Unflushed(f, Abs(), num);
      while i < num && |tables| > 0
        invariant FlushWindows(old(Abs()), num).s == FlushWindows(Abs(), num - i).s
        invariant Outputs(f, FlushWindows(old(Abs()), num).log) == out + Outputs(f, FlushWindows(Abs(), num - i).log)
      {
        FlushedFirst(f, Abs(), num - i, out);
        var more := FlushFirst();
        out := out + more;
        i := i + 1;
      }
      Unflushed(f, Abs(), num - i);
      finished := true;
    }

    method Flush() returns (out: seq<O>)
      modifies this
      ensures var r := OopGroupBy.FlushAll(old(Abs()));
              Abs() == r.s && out == Outputs(f, r.log)
    {
      hide T.Items, Outputs, FlushWindows;
      ghost var s := FromStart(Abs());
      ghost var n := |tables|;
      out := [];
      Unflushed(f, s, n);
      while |tables| > 0
        invariant finished == old(finished)
        invariant FlushWindows(s, n).s == FlushWindows(FromStart(Abs()), |tables|).s
        invariant Outputs(f, FlushWindows(s, n).log)
               == out + Outputs(f, FlushWindows(FromStart(Abs()), |tables|).log)
      {
        if finished { pos := 0; }
        FlushedFirst(f, Abs(), |tables|, out);
        var more := FlushFirst();
        out := out + more;
      }
      Unflushed(f, Abs(), 0);
      finished := true;
    }

    /** Put empty tables before the first one until it is the table of window w. */
    method GrowFront(w: int)
      requires w < minWid
      modifies this`tables, this`minWid
      ensures tables == Empties(old(minWid) - w) + old(tables) && minWid == w
    {
      hide T.Empty;
      var i := w;
      while i < minWid
        invariant w <= i <= minWid == old(minWid)
        invariant tables == Empties(i - w) + old(tables)
      {
        EmptiesFront<G, A>(i + 1 - w);
        assert [T.Empty(T.BUCKETS)] + (Empties(i - w) + old(tables))
            == ([T.Empty(T.BUCKETS)] + Empties(i - w)) + old(tables);
        tables := [T.Empty(T.BUCKETS)] + tables;
        i := i + 1;
      }
      minWid := w;
    }

    /** Put empty tables after the last one until it is the table of window w. */
    method GrowBack(w: int)
      requires w > maxWid
      modifies this`tables, this`maxWid
      ensures tables == old(tables) + Empties(w - old(maxWid)) && maxWid == w
    {
      hide T.Empty;
      var i := maxWid;
      assert tables + [] == tables;
      while i < w
        invariant old(maxWid) == maxWid <= i <= w
        invariant tables == old(tables) + Empties(i - old(maxWid))
      {
        EmptiesFront<G, A>(i + 1 - maxWid);
        assert (old(tables) + Empties(i - maxWid)) + [T.Empty(T.BUCKETS)]
            == old(tables) + (Empties(i - maxWid) + [T.Empty(T.BUCKETS)]);
        tables := tables + [T.Empty(T.BUCKETS)];
        i := i + 1;
      }
      maxWid := w;
    }

    /** Make room for window w. */
    method MakeRoom(w: int)
      modifies this
      ensures Abs() == Extend(old(Abs()), w)
    {
      hide T.Empty, Empties;
      if maxWid == 0 && minWid == 0 {
        tables := tables + [T.Empty(T.BUCKETS)];
        maxWid, minWid := w, w;
      }
      if w < minWid { GrowFront(w); }
      if w > maxWid { GrowBack(w); }
    }

    method AcceptTuple(i: Input<X>) returns (out: seq<O>)
      modifies this
      ensures var r := Step(f, old(Abs()), i);
              Abs() == r.s && out == Outputs(f, r.log)
    {
      hide T.Items, Outputs, OopGroupBy.PartialFlush, OopGroupBy.FlushOld, Extend, Absorb;
      OutputsNil(f);
      out := [];
      if !finished { out := PartialFlush(); }
      match i {
        case Punct(w) =>
          ghost var r := if old(finished) then Result(old(Abs()), []) else OopGroupBy.PartialFlush(old(Abs()));
          OutputsConcat(f, r.log, AddPunct(f, Abs(), w).log);
          var more := Punctuate(w);
          out := out + more;
        case Data(x) =>
          match f.group(x) {
            case None => needs := false;
            case Some(g) =>
              MakeRoom(f.window(g));
              var k := f.window(g) - minWid;
              if 0 <= k < |tables| && |tables[k].chains| > 0 {
                tables := tables[k := Absorb(f, tables[k], x, g)];
                needs := false;
              }
          }
      }
    }

    method Punctuate(w: int) returns (out: seq<O>)
      modifies this
      ensures var r := AddPunct(f, old(Abs()), w);
              Abs() == r.s && out == Outputs(f, r.log)
    {
      hide T.Items, Outputs, OopGroupBy.FlushOld;
      OutputsNil(f);
      out := [];
      if w == lastGb {
        needs := false;
      } else {
        needs := needs || lastGb > 0;
        lastFlushedGb, lastGb := lastGb, w;
      }
      var index := if lastFlushedGb >= minWid then lastFlushedGb - minWid else Negated(f, minWid - lastFlushedGb);
      if |tables| > 0 && needs && index >= 0 {
        if !finished { out := FlushOld(); }
        if lastGb > minWid && |tables| > 0 { finished := false; }
        if |tables| > 0 { pos := 0; }
      }
    }
  }

  /** The negation of a positive difference d in the temporal type, as a 64-bit signed index. */
  function Negated<X, G, A, O>(f: Functor<X, G, A, O>, d: int): int {
    if f.unsigned32 then -d % 0x1_0000_0000 else -d
  }

  /** One turn of the window loop. */
  lemma FlushedFirst<X, G, A, O>(f: Functor<X, G, A, O>, s: State<G, A>, num: int, out: seq<O>)
    requires num > 0 && s.tables != []
    ensures FlushWindows(s, num).s == FlushWindows(DropFirst(s), num - 1).s
    ensures var items := T.Items(s.tables[0]);
            out + Outputs(f, FlushWindows(s, num).log)
            == (out + Outputs(f, if s.pos <= |items| then items[s.pos..] else []))
             + Outputs(f, FlushWindows(DropFirst(s), num - 1).log)
  {
    hide T.Items, Outputs;
    var items := T.Items(s.tables[0]);
    OutputsConcat(f, if s.pos <= |items| then items[s.pos..] else [], FlushWindows(DropFirst(s), num - 1).log);
  }

  lemma Unflushed<X, G, A, O>(f: Functor<X, G, A, O>, s: State<G, A>, num: int)
    ensures [] + Outputs(f, FlushWindows(s, num).log) == Outputs(f, FlushWindows(s, num).log)
    ensures num <= 0 || s.tables == [] ==>
            FlushWindows(s, num) == Result(s, []) && Outputs(f, FlushWindows(s, num).log) == []
  {
  }

  lemma {:induction false} EmptiesFront<G, A>(n: int)
    requires n > 0
    ensures Empties<G, A>(n) == [T.Empty(T.BUCKETS)] + Empties(n - 1)
  {
    hide T.Empty;
    if n > 1 {
      EmptiesFront<G, A>(n - 1);
      assert ([T.Empty<G, A>(T.BUCKETS)] + Empties(n - 2)) + [T.Empty(T.BUCKETS)]
          == [T.Empty(T.BUCKETS)] + (Empties(n - 2) + [T.Empty(T.BUCKETS)]);
    } else {
      assert Empties<G, A>(0) == [];
    }
  }
}
