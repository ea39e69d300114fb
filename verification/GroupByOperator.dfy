/** The double-buffered group-by operator with its two tables updated in place. */
module GroupByOperators {
  import opened Options
  import opened Grouping
  import opened GroupBy
  import T = Table

  /** Groups output for one input tuple while a flush is under way. */
  const FLUSH_PER_TUPLE: nat := 1

  class GroupByOperator<X, G(==), A, O> {
    const q: Query<X, G, A, O>
    var tables: seq<T.Table<G, A>>
    var curr: nat
    var finished: bool
    var pos: nat
    var lastGb: int

    function Abs(): State<G, A>
      reads this
    {
      State(tables, curr, finished, pos, lastGb)
    }

    constructor (q: Query<X, G, A, O>)
      ensures Abs() == Init() && this.q == q
    {
      this.q := q;
      tables, curr, finished, pos, lastGb := [T.Empty(T.BUCKETS), T.Empty(T.BUCKETS)], 0, true, 0, 0;
    }

    /** Output groups of a table from flush_pos on, at most `limit` of them. */
    method Emit(t: nat, limit: nat) returns (out: seq<O>)
      requires t < |tables|
      modifies this`pos
      ensures var items := T.Items(tables[t]);
              var n := if old(pos) + limit <= |items| then limit
                  else if old(pos) <= |items| then |items| - old(pos) else 0;
              && pos == old(pos) + n && old(pos) <= pos && (n > 0 ==> pos <= |items|)
              && out == (if n > 0 then Outputs(q.f, items[old(pos)..pos]) else [])
    {
      hide T.Items, Outputs;
      var items := T.Items(tables[t]);
      var i := 0;
      out := [];
      OutputsNil(q.f);
      while pos < |items| && i < limit
        invariant pos == old(pos) + i && i <= limit && (i > 0 ==> pos <= |items|)
        invariant out == if i > 0 then Outputs(q.f, items[old(pos)..pos]) else []
      {
        var made := q.f.output(items[pos].key, items[pos].val);
        assert items[old(pos)..pos + 1] == items[old(pos)..pos] + [items[pos]];
        OutputsSnoc(q.f, items[old(pos)..pos], items[pos]);
        assert i == 0 ==> items[old(pos)..pos] == [];
        if made.Some? { out := out + [made.value]; }
        pos, i := pos + 1, i + 1;
      }
    }

    method EmitAll(t: nat) returns (out: seq<O>)
      requires t < |tables|
      modifies this`pos
      ensures out == Outputs(q.f, Tail(T.Items(tables[t]), old(pos)))
    {
      hide T.Items, Outputs;
      OutputsNil(q.f);
      var size := |T.Items(tables[t])|;
      if pos <= size {
        assert T.Items(tables[t])[pos..] == T.Items(tables[t])[pos..size];
        assert pos == size ==> T.Items(tables[t])[pos..] == [];
      }
      out := Emit(t, size);
    }

    method PartialFlush() returns (out: seq<O>)
      requires Sized(Abs())
      modifies this
      ensures var r := GroupBy.PartialFlush(old(Abs()));
              Abs() == r.s && out == Outputs(q.f, r.log)
    {
      hide T.Items, Outputs, T.Cleared;
      OutputsNil(q.f);
      var idle := 1 - curr;
      var size := |T.Items(tables[idle])|;
      out := Emit(idle, FLUSH_PER_TUPLE);
      if old(pos) < size {
        assert T.Items(tables[idle])[old(pos)..pos] == [T.Items(tables[idle])[old(pos)]];
      }
      if pos >= size {
        finished := true;
        tables, pos := tables[idle := T.Cleared(tables[idle])], 0;
      }
    }

    /** Output what is left of the old table and clear it. */
    method DrainOld() returns (out: seq<O>)
      requires Sized(Abs())
      modifies this
      ensures var r := Drain(old(Abs()));
              Abs() == r.s && out == Outputs(q.f, r.log)
    {
      hide T.Items, Outputs, T.Cleared;
      OutputsNil(q.f);
      var idle := 1 - curr;
      out := [];
      if |T.Items(tables[idle])| > 0 {
        out := EmitAll(idle);
        tables, pos := tables[idle := T.Cleared(tables[idle])], 0;
      }
    }

    method FlushOld() returns (out: seq<O>)
      requires Sized(Abs())
      modifies this
      ensures var r := GroupBy.FlushOld(old(Abs()));
              Abs() == r.s && out == Outputs(q.f, r.log)
    {
      hide T.Items, Outputs, Drain;
      var idle := 1 - curr;
      out := DrainOld();
      pos, curr, finished := 0, idle, false;
    }

    method Flush() returns (out: seq<O>)
      requires Sized(Abs())
      modifies this
      ensures var r := GroupBy.Flush(old(Abs()));
              Abs() == r.s && out == Outputs(q.f, r.log)
    {
      hide T.Items, Outputs, Drain, T.Empty;
      OutputsNil(q.f);
      ghost var d := Drain(old(Abs()));
      out := DrainOld();
      pos := 0;
      OutputsConcat(q.f, d.log, T.Items(Current(d.s)));
      if |T.Items(tables[curr])| > 0 {
        var more := EmitAll(curr);
        assert T.Items(tables[curr])[0..] == T.Items(tables[curr]);
        out := out + more;
        tables := tables[curr := T.Empty(|tables[curr].chains|)];
      }
      pos, finished := 0, true;
    }

    method AcceptTuple(x: X) returns (out: seq<O>)
      requires Sized(Abs())
      modifies this
      ensures var r := Accept(q, old(Abs()), x);
              Abs() == r.s && out == Outputs(q.f, r.log)
    {
      hide T.Items, Outputs, GroupBy.PartialFlush, GroupBy.FlushOld, T.Has, T.Get, T.Put, T.Insert, T.Bucket;
      OutputsNil(q.f);
      out := [];
      if !finished { out := PartialFlush(); }
      ghost var r := if old(finished) then Result(old(Abs()), []) else GroupBy.PartialFlush(old(Abs()));
      var needs := q.epoch(x) != lastGb;
      lastGb := q.epoch(x);
      ghost var s1 := Abs();
      assert r.log + [] == r.log;
      match q.f.group(x) {
        case None =>
          if needs {
            OutputsConcat(q.f, r.log, GroupBy.FlushOld(s1).log);
            var more := FlushOld();
            out := out + more;
          }
        case Some(g) =>
          if T.Has(tables[curr], q.f.hash, g) {
            var a := q.f.update(x, T.Get(tables[curr], q.f.hash, g));
            tables := tables[curr := T.Put(tables[curr], q.f.hash, g, a)];
          } else {
            if needs {
              OutputsConcat(q.f, r.log, GroupBy.FlushOld(s1).log);
              var more := FlushOld();
              out := out + more;
            }
            tables := tables[curr := T.Insert(tables[curr], q.f.hash, g, q.f.create(x))];
          }
      }
    }
  }
}
