/**
 * Sampling without tables: the history of one supergroup, kept as a plain list of groups with their aggregates.  A run
 * of the operator treats every supergroup as this reference does.
 */
module CleanReference {
  import opened Options
  import opened Clean
  import opened CleanSteps
  import opened CleanOperators
  import opened CleanRuns
  import T = Table
  import L = TableLaws

  /** A supergroup in one window: its state, and its groups with their aggregates in order of arrival. */
  datatype Sample<G, A, S> = Sample(state: S, members: seq<T.Item<G, A>>)

  /** A supergroup in the current window, and the state and count that the closed window left of it. */
  datatype History<G, A, S> = History(now: Option<Sample<G, A, S>>, before: Option<(S, int)>)

  // ------------------------------------------------ the reference

  function Held<G(==), A>(ms: seq<T.Item<G, A>>, g: G): Option<A> {
    if ms == [] then None else if ms[0].key == g then Some(ms[0].val) else Held(ms[1..], g)
  }

  /** Set the aggregate of g, adding it at the end if it is new. */
  function Amend<G(==), A>(ms: seq<T.Item<G, A>>, g: G, a: A): seq<T.Item<G, A>> {
    if ms == [] then [T.Item(g, a)]
    else if ms[0].key == g then [T.Item(g, a)] + ms[1..]
    else [ms[0]] + Amend(ms[1..], g, a)
  }

  /** One pass of the sampling predicate over the groups. */
  function Kept<X, G, K, A, S, O>(q: Query<X, G, K, A, S, O>, ms: seq<T.Item<G, A>>, s: S, final: bool,
      cd: int): Sample<G, A, S>
  {
    if ms == [] then Sample(s, []) else
    var m := ms[|ms| - 1];
    var r := Kept(q, ms[..|ms| - 1], s, final, cd);
    var d := q.sample(final, m.key, m.val, r.state, cd);
    if d.0 then Sample(d.1, r.members + [m]) else Sample(q.minus(m.key, m.val, d.1), r.members)
  }

  /** The end of a window. */
  function Close<X, G, K, A, S, O>(q: Query<X, G, K, A, S, O>, m: Sample<G, A, S>): Sample<G, A, S> {
    Kept(q, m.members, q.finalize(m.state, |m.members|), true, |m.members|)
  }

  /** The state and count that the predicate sees. */
  function Start<X, G, K, A, S, O>(q: Query<X, G, K, A, S, O>, h: History<G, A, S>, x: X, g: G, cd: int): (S, int) {
    if h.now.Some? then (h.now.value.state, |h.now.value.members|)
    else if h.before.Some? then (q.reinitial(x, g, h.before.value.0, h.before.value.1), h.before.value.1)
    else (q.initial(x, g), cd)
  }

  function Members<G, A, S>(h: History<G, A, S>): seq<T.Item<G, A>> {
    if h.now.Some? then h.now.value.members else []
  }

  /** The aggregate of g and the state after an admitted tuple. */
  function Fold<X, G(==), K, A, S, O>(q: Query<X, G, K, A, S, O>, ms: seq<T.Item<G, A>>, x: X, g: G, s: S): (A, S) {
    var a := Held(ms, g);
    if a.Some? then q.update(x, g, a.value, s, |ms| + 1) else q.create(x, g, s, |ms| + 1)
  }

  /** Clean the groups if the cleaning condition asks for it. */
  function Trim<X, G, K, A, S, O>(q: Query<X, G, K, A, S, O>, g: G, ms: seq<T.Item<G, A>>, s: S): Sample<G, A, S> {
    var c := q.cleaning(g, s, |ms|);
    if c.0 then Kept(q, ms, c.1, false, |ms|) else Sample(c.1, ms)
  }

  /** A tuple of group g comes to its supergroup. */
  function Offer<X, G(==), K, A, S, O>(q: Query<X, G, K, A, S, O>, h: History<G, A, S>, x: X, g: G,
      cd: int): Sample<G, A, S>
  {
    var start := Start(q, h, x, g, cd);
    var w := q.where(x, g, start.0, start.1);
    if !w.0 then Sample(w.1, Members(h)) else
    var u := Fold(q, Members(h), x, g, q.plus(x, g, w.1));
    Trim(q, g, Amend(Members(h), g, u.0), u.1)
  }

  /** One input, seen by supergroup k alone. */
  function Alone<X, G(==), K(==), A, S, O>(q: Query<X, G, K, A, S, O>, k: K, x: X, needs: bool, cd: int,
      h: History<G, A, S>): History<G, A, S>
  {
    if needs then Give(q, k, x, cd, Turn(q, h)) else Give(q, k, x, 0, h)
  }

  /** Only a tuple of supergroup k matters to it. */
  function Give<X, G(==), K(==), A, S, O>(q: Query<X, G, K, A, S, O>, k: K, x: X, cd: int,
      h: History<G, A, S>): History<G, A, S>
  {
    match q.group(x)
    case None => h
    case Some(g) => if q.super(g) == k then h.(now := Some(Offer(q, h, x, g, cd))) else h
  }

  /** The window ends. */
  function Turn<X, G, K, A, S, O>(q: Query<X, G, K, A, S, O>, h: History<G, A, S>): History<G, A, S> {
    if h.now.None? then History(None, None) else
    var m := Close(q, h.now.value);
    History(None, Some((m.state, |m.members|)))
  }

  /** A run, seen by supergroup k alone; cds[i] is the count left over if input i comes with a flush. */
  function RunAlone<X, G(==), K(==), A, S, O>(q: Query<X, G, K, A, S, O>, k: K, ins: seq<(X, bool)>, cds: seq<int>,
      h: History<G, A, S>): History<G, A, S>
    requires |cds| == |ins|
  {
    if ins == [] then h else
    var n := |ins| - 1;
    Alone(q, k, ins[n].0, ins[n].1, cds[n], RunAlone(q, k, ins[..n], cds[..n], h))
  }

  // ------------------------------------------------ the tables, seen as a history

  /** The listed groups with their stored aggregates. */
  ghost function Load<X, G(!new), K, A, S, O>(q: Query<X, G, K, A, S, O>, gt: T.Table<G, A>,
      l: seq<G>): (r: seq<T.Item<G, A>>)
    requires |gt.chains| > 0 && Stored(q, gt, l)
    ensures |r| == |l| && forall i :: 0 <= i < |l| ==> r[i] == T.Item(l[i], T.Get(gt, q.hash, l[i]))
  {
    seq(|l|, i requires 0 <= i < |l| && T.Has(gt, q.hash, l[i]) => T.Item(l[i], T.Get(gt, q.hash, l[i])))
  }

  ghost function View<X, G(!new), K(!new), A, S, O>(q: Query<X, G, K, A, S, O>, gt: T.Table<G, A>, st: T.Table<K, S>,
      at: T.Table<K, Attr<G>>, k: K): Option<Sample<G, A, S>>
    requires SideOk(q, gt, st, at)
  {
    SizedSide(q, gt, st, at);
    if !T.Has(at, q.superHash, k) then None else
    ListStored(q, gt, st, at, k);
    Some(Sample(T.Get(st, q.superHash, k), Load(q, gt, T.Get(at, q.superHash, k).list)))
  }

  ghost function Before<X, G, K, A, S, O>(q: Query<X, G, K, A, S, O>, oldSt: T.Table<K, S>, oldAt: T.Table<K, Attr<G>>,
      k: K): Option<(S, int)>
  {
    if |oldSt.chains| > 0 && T.Has(oldSt, q.superHash, k)
    then Some((T.Get(oldSt, q.superHash, k), AttrOf(q, oldAt, k).count)) else None
  }

  ghost function HistoryOf<X, G(!new), K(!new), A, S, O>(q: Query<X, G, K, A, S, O>, s: Snapshot<G, K, A, S>,
      k: K): History<G, A, S>
    requires Sound(q, s)
  {
    History(View(q, s.gt, s.st, s.at, k), Before(q, s.oldSt, s.oldAt, k))
  }

  // ------------------------------------------------ lists of groups with their aggregates

  lemma LoadSnoc<X, G(!new), K, A, S, O>(q: Query<X, G, K, A, S, O>, gt: T.Table<G, A>, l: seq<G>, g: G)
    requires |gt.chains| > 0 && Stored(q, gt, l) && T.Has(gt, q.hash, g)
    ensures Stored(q, gt, l + [g])
    ensures Load(q, gt, l + [g]) == Load(q, gt, l) + [T.Item(g, T.Get(gt, q.hash, g))]
  {
    hide T.Has, T.Get;
  }

  /** A cleaning pass over the tables is one over the list. */
  lemma {:induction false} KeptIsSurvivors<X, G(!new), K, A, S, O>(q: Query<X, G, K, A, S, O>, gt: T.Table<G, A>,
      l: seq<G>, s: S, final: bool, cd: int)
    requires |gt.chains| > 0 && Stored(q, gt, l)
    ensures var r := Survivors(q, gt, l, s, final, cd);
            Stored(q, gt, r.0) && Kept(q, Load(q, gt, l), s, final, cd) == Sample(r.1, Load(q, gt, r.0))
  {
    hide T.Has, T.Get;
    if l != [] {
      var n := |l| - 1;
      var l' := l[..n];
      KeptIsSurvivors(q, gt, l', s, final, cd);
      assert l == l' + [l[n]];
      LoadSnoc(q, gt, l', l[n]);
      var ms := Load(q, gt, l);
      assert ms[..n] == Load(q, gt, l');
      var r := Survivors(q, gt, l', s, final, cd);
      LoadSnoc(q, gt, r.0, l[n]);
    }
  }

  /** Tables that agree on the listed groups. */
  lemma LoadFrame<X, G(!new), K, A, S, O>(q: Query<X, G, K, A, S, O>, gt: T.Table<G, A>, gt': T.Table<G, A>, l: seq<G>)
    requires |gt.chains| > 0 && |gt'.chains| > 0 && Stored(q, gt, l) && Stored(q, gt', l)
    requires forall i :: 0 <= i < |l| ==> T.Get(gt', q.hash, l[i]) == T.Get(gt, q.hash, l[i])
    ensures Load(q, gt', l) == Load(q, gt, l)
  {
    hide T.Has, T.Get;
  }

  lemma {:induction false} HeldIs<G, A>(ms: seq<T.Item<G, A>>, g: G)
    ensures Held(ms, g).None? <==> forall i :: 0 <= i < |ms| ==> ms[i].key != g
    ensures Held(ms, g).Some? ==> T.Item(g, Held(ms, g).value) in ms
  {
    if ms != [] && ms[0].key != g {
      HeldIs(ms[1..], g);
      assert forall i :: 1 <= i < |ms| ==> ms[i] == ms[1..][i - 1];
    }
  }

  lemma {:induction false} AmendNew<G, A>(ms: seq<T.Item<G, A>>, g: G, a: A)
    requires forall i :: 0 <= i < |ms| ==> ms[i].key != g
    ensures Amend(ms, g, a) == ms + [T.Item(g, a)]
  {
    if ms != [] {
      AmendNew(ms[1..], g, a);
      assert ms == [ms[0]] + ms[1..];
    }
  }

  lemma {:induction false} AmendAt<G, A>(ms: seq<T.Item<G, A>>, g: G, a: A, i: nat)
    requires i < |ms| && ms[i].key == g && forall j :: 0 <= j < i ==> ms[j].key != g
    ensures Amend(ms, g, a) == ms[i := T.Item(g, a)]
  {
    if i > 0 {
      AmendAt(ms[1..], g, a, i - 1);
      assert ms[i := T.Item(g, a)] == [ms[0]] + ms[1..][i - 1 := T.Item(g, a)];
    } else {
      assert ms[0 := T.Item(g, a)] == [T.Item(g, a)] + ms[1..];
    }
  }

  // ------------------------------------------------ one tuple

  /** What the group table and the list say of group g. */
  lemma HeldInTable<X, G(!new), K(!new), A, S, O>(q: Query<X, G, K, A, S, O>, gt: T.Table<G, A>, l: seq<G>, g: G)
    requires |gt.chains| > 0 && Stored(q, gt, l) && (g in l <==> T.Has(gt, q.hash, g))
    ensures Held(Load(q, gt, l), g) == if T.Has(gt, q.hash, g) then Some(T.Get(gt, q.hash, g)) else None
  {
    hide T.Has, T.Get;
    var ms := Load(q, gt, l);
    HeldIs(ms, g);
    if g in l {
      var i :| 0 <= i < |l| && l[i] == g;
      assert ms[i].key == g;
    }
  }

  /** Storing the aggregate of g amends the list. */
  lemma AmendInTable<X, G(!new), K(!new), A, S, O>(q: Query<X, G, K, A, S, O>, gt: T.Table<G, A>, gt': T.Table<G, A>,
      l: seq<G>, g: G, a: A)
    requires |gt.chains| > 0 && |gt'.chains| > 0 && Stored(q, gt, l) && T.NoDup(l)
    requires g in l <==> T.Has(gt, q.hash, g)
    requires SameBut(gt, gt', q.hash, g) && T.Has(gt', q.hash, g) && T.Get(gt', q.hash, g) == a
    ensures var l' := if T.Has(gt, q.hash, g) then l else l + [g];
            Stored(q, gt', l') && Load(q, gt', l') == Amend(Load(q, gt, l), g, a)
  {
    hide T.Has, T.Get;
    var ms := Load(q, gt, l);
    if g in l {
      var i: nat :| i < |l| && l[i] == g;
      AmendAt(ms, g, a, i);
    } else {
      AmendNew(ms, g, a);
    }
  }

  lemma RecordedIs<X, G(!new), K(!new), A, S, O>(q: Query<X, G, K, A, S, O>, gt: T.Table<G, A>, g: G, a: A)
    requires T.Valid(gt, q.hash) && |gt.chains| > 0
    ensures var gt' := Recorded(q, gt, g, a);
            |gt'.chains| > 0 && SameBut(gt, gt', q.hash, g) && T.Has(gt', q.hash, g) && T.Get(gt', q.hash, g) == a
  {
    hide T.Has, T.Get, T.Put, T.Insert, T.Valid;
    if T.Has(gt, q.hash, g) { PutSame(gt, q.hash, g, a); } else { InsertSame(gt, q.hash, g, a); }
  }

  /** The list of the supergroup of g before the tuple, and whether g is on it. */
  lemma ListBefore<X, G(!new), K(!new), A, S, O>(q: Query<X, G, K, A, S, O>, gt: T.Table<G, A>, st: T.Table<K, S>,
      at: T.Table<K, Attr<G>>, oldSt: T.Table<K, S>, oldAt: T.Table<K, Attr<G>>, g: G)
    requires SideOk(q, gt, st, at)
    ensures var a := AttrOf(q, at, q.super(g));
            var h := History(View(q, gt, st, at, q.super(g)), Before(q, oldSt, oldAt, q.super(g)));
            && |gt.chains| > 0 && Stored(q, gt, a.list) && a.count == |a.list| && T.NoDup(a.list)
            && (g in a.list <==> T.Has(gt, q.hash, g)) && Members(h) == Load(q, gt, a.list)
  {
    hide T.Has, T.Get, TablesOk;
    var k := q.super(g);
    if T.Has(at, q.superHash, k) {
      ListStored(q, gt, st, at, k);
      assert AttrOk(q, gt, T.Get(at, q.superHash, k), k);
    }
  }

  lemma StartIsSeen<X, G(!new), K(!new), A, S, O>(q: Query<X, G, K, A, S, O>, gt: T.Table<G, A>, st: T.Table<K, S>,
      at: T.Table<K, Attr<G>>, oldSt: T.Table<K, S>, oldAt: T.Table<K, Attr<G>>, x: X, g: G, cd: int)
    requires SideOk(q, gt, st, at)
    ensures var h := History(View(q, gt, st, at, q.super(g)), Before(q, oldSt, oldAt, q.super(g)));
            Start(q, h, x, g, cd) == Seen(q, st, at, oldSt, oldAt, x, g, cd)
  {
    hide T.Has, T.Get, TablesOk;
    var k := q.super(g);
    if T.Has(at, q.superHash, k) { ListStored(q, gt, st, at, k); }
  }

  /** The supergroup of g after the cleaning condition has been evaluated. */
  lemma TrimIs<X, G(!new), K(!new), A, S, O>(q: Query<X, G, K, A, S, O>, g: G, gt1: T.Table<G, A>, s: S, a: Attr<G>,
      gt: T.Table<G, A>, st: T.Table<K, S>, at: T.Table<K, Attr<G>>)
    requires SideOk(q, gt, st, at) && CleanedOrNot(q, g, gt1, s, a, gt, st, at)
    requires |gt1.chains| > 0 && Stored(q, gt1, a.list) && a.count == |a.list|
    ensures View(q, gt, st, at, q.super(g)) == Some(Trim(q, g, Load(q, gt1, a.list), s))
  {
    hide T.Has, T.Get, SideOk, Survivors, Kept, Load;
    var k := q.super(g);
    SizedSide(q, gt, st, at);
    ListStored(q, gt, st, at, k);
    var c := q.cleaning(g, s, a.count);
    if c.0 {
      KeptIsSurvivors(q, gt1, a.list, c.1, false, |a.list|);
      LoadFrame(q, gt1, gt, T.Get(at, q.superHash, k).list);
    }
  }

  /** The supergroup of the tuple follows the reference. */
  lemma OfferIs<X, G(!new), K(!new), A, S, O>(q: Query<X, G, K, A, S, O>, x: X, g: G, cd: int,
      gt0: T.Table<G, A>, st0: T.Table<K, S>, at0: T.Table<K, Attr<G>>,
      oldSt: T.Table<K, S>, oldAt: T.Table<K, Attr<G>>,
      gt: T.Table<G, A>, st: T.Table<K, S>, at: T.Table<K, Attr<G>>)
    requires SideOk(q, gt0, st0, at0) && SideOk(q, gt, st, at)
    requires Outcome(q, x, g, cd, gt0, st0, at0, oldSt, oldAt, gt, st, at)
    ensures var k := q.super(g);
            var h := History(View(q, gt0, st0, at0, k), Before(q, oldSt, oldAt, k));
            View(q, gt, st, at, k) == Some(Offer(q, h, x, g, cd))
  {
    hide T.Has, T.Get, SideOk, Start, Seen, Load, Held, Amend, Trim, CleanedOrNot, AttrOf, Members, Recorded, Before;
    hide Stored, T.NoDup, SameBut, T.Valid;
    var k := q.super(g);
    var h := History(View(q, gt0, st0, at0, k), Before(q, oldSt, oldAt, k));
    StartIsSeen(q, gt0, st0, at0, oldSt, oldAt, x, g, cd);
    ListBefore(q, gt0, st0, at0, oldSt, oldAt, g);
    var a0 := AttrOf(q, at0, k);
    var seen := Seen(q, st0, at0, oldSt, oldAt, x, g, cd);
    var w := q.where(x, g, seen.0, seen.1);
    if w.0 {
      var u := Aggregate(q, gt0, x, g, q.plus(x, g, w.1), a0.count + 1);
      HeldInTable(q, gt0, a0.list, g);
      SideTables(q, gt0, st0, at0);
      RecordedIs(q, gt0, g, u.0);
      AmendInTable(q, gt0, Recorded(q, gt0, g, u.0), a0.list, g, u.0);
      TrimIs(q, g, Recorded(q, gt0, g, u.0), u.1, Listed(q, gt0, a0, g), gt, st, at);
    } else {
      SizedSide(q, gt, st, at);
      ListStored(q, gt, st, at, k);
    }
  }

  /** The other supergroups keep theirs. */
  lemma OthersAre<X, G(!new), K(!new), A, S, O>(q: Query<X, G, K, A, S, O>, k: K, j: K,
      gt0: T.Table<G, A>, st0: T.Table<K, S>, at0: T.Table<K, Attr<G>>,
      gt: T.Table<G, A>, st: T.Table<K, S>, at: T.Table<K, Attr<G>>)
    requires SideOk(q, gt0, st0, at0) && SideOk(q, gt, st, at) && j != k
    requires OthersKept(q, k, gt0, st0, at0, gt, st, at)
    ensures View(q, gt, st, at, j) == View(q, gt0, st0, at0, j)
  {
    hide T.Has, T.Get, SideOk, Load;
    if T.Has(at, q.superHash, j) {
      ListStored(q, gt0, st0, at0, j);
      ListStored(q, gt, st, at, j);
      LoadFrame(q, gt0, gt, T.Get(at, q.superHash, j).list);
    }
  }

  // ------------------------------------------------ the end of a window

  /** A closed window, seen by supergroup k. */
  lemma CloseIs<X, G(!new), K(!new), A, S, O>(q: Query<X, G, K, A, S, O>, w: Window<G, K, A, S>, k: K)
    requires Closing(q, w)
    ensures SideOk(q, w.gt0, w.st0, w.at0) && SideOk(q, w.gt, w.st, w.at)
    ensures var m := View(q, w.gt0, w.st0, w.at0, k);
            View(q, w.gt, w.st, w.at, k) == if m.None? then None else Some(Close(q, m.value))
  {
    hide T.Has, T.Get, TablesOk, CountsOk, Survivors, Kept, Load;
    if T.Has(w.at0, q.superHash, k) {
      var a := T.Get(w.at0, q.superHash, k);
      assert Finalized(q, w.gt0, w.st0, w.at0, k, w.st, w.at);
      ListStored(q, w.gt0, w.st0, w.at0, k);
      ListStored(q, w.gt, w.st, w.at, k);
      KeptIsSurvivors(q, w.gt0, a.list, q.finalize(T.Get(w.st0, q.superHash, k), a.count), true, |a.list|);
      LoadFrame(q, w.gt0, w.gt, T.Get(w.at, q.superHash, k).list);
    }
  }

  lemma BeforeIs<X, G(!new), K(!new), A, S, O>(q: Query<X, G, K, A, S, O>, gt: T.Table<G, A>, st: T.Table<K, S>,
      at: T.Table<K, Attr<G>>, k: K)
    requires SideOk(q, gt, st, at)
    ensures var m := View(q, gt, st, at, k);
            Before(q, st, at, k) == if m.None? then None else Some((m.value.state, |m.value.members|))
  {
    hide T.Has, T.Get, TablesOk, CountsOk;
    if T.Has(at, q.superHash, k) { ListStored(q, gt, st, at, k); }
  }

  lemma NothingYet<X, G(!new), K(!new), A, S, O>(q: Query<X, G, K, A, S, O>, gt: T.Table<G, A>, st: T.Table<K, S>,
      at: T.Table<K, Attr<G>>, k: K)
    requires SideOk(q, gt, st, at) && Blank(gt, st, at)
    ensures View(q, gt, st, at, k) == None && Before(q, st, at, k) == None
  {
    hide T.Has, T.Get, T.Items, T.Valid, CountsOk, T.UniqueKeys;
    L.EmptyHas(at, q.superHash, k);
  }

  // ------------------------------------------------ runs

  lemma TakenIs<X, G(!new), K(!new), A, S, O>(q: Query<X, G, K, A, S, O>, k: K, x: X, cd: int,
      gt: T.Table<G, A>, st: T.Table<K, S>, at: T.Table<K, Attr<G>>, b: Snapshot<G, K, A, S>)
    requires SideOk(q, gt, st, at) && Sound(q, b) && Taken(q, x, cd, gt, st, at, b)
    ensures var h := History(View(q, gt, st, at, k), Before(q, b.oldSt, b.oldAt, k));
            HistoryOf(q, b, k) == Give(q, k, x, cd, h)
  {
    hide SideOk, ClosedOk, View, Before, Offer, Outcome, OthersKept;
    match q.group(x)
    case None =>
    case Some(g) =>
      if q.super(g) == k {
        OfferIs(q, x, g, cd, gt, st, at, b.oldSt, b.oldAt, b.gt, b.st, b.at);
      } else {
        OthersAre(q, q.super(g), k, gt, st, at, b.gt, b.st, b.at);
      }
  }

  /** One input of the operator is one input of the reference. */
  lemma StepIsAlone<X, G(!new), K(!new), A(!new), S(!new), O>(q: Query<X, G, K, A, S, O>, k: K, x: X, needs: bool,
      a: Snapshot<G, K, A, S>, b: Snapshot<G, K, A, S>)
    requires Sound(q, a) && Sound(q, b) && Step(q, x, needs, a, b)
    ensures HistoryOf(q, b, k) == Alone(q, k, x, needs, LastCount(q, a.st, a.at), HistoryOf(q, a, k))
  {
    hide SideOk, ClosedOk, View, Before, Offer, WindowClosed, Taken, Blank, LastCount, Close;
    if needs {
      var w := Window(a.gt, a.st, a.at, b.oldGt, b.oldSt, b.oldAt);
      CloseIs(q, w, k);
      BeforeIs(q, w.gt, w.st, w.at, k);
      var cd := LastCount(q, a.st, a.at);
      var gt, st, at :| Blank(gt, st, at) && SideOk(q, gt, st, at) && Taken(q, x, cd, gt, st, at, b);
      NothingYet(q, gt, st, at, k);
      TakenIs(q, k, x, cd, gt, st, at, b);
    } else {
      TakenIs(q, k, x, 0, a.gt, a.st, a.at, b);
    }
  }

  /** The counts left over, input by input. */
  ghost function LeftOvers<X, G, K, A, S, O>(q: Query<X, G, K, A, S, O>, tr: seq<Snapshot<G, K, A, S>>,
      n: nat): (r: seq<int>)
    requires n <= |tr|
    ensures |r| == n && forall i :: 0 <= i < n ==> r[i] == LastCount(q, tr[i].st, tr[i].at)
  {
    seq(n, i requires 0 <= i < n => LastCount(q, tr[i].st, tr[i].at))
  }

  /**
   * In any run every supergroup has the history it would have alone.  The other supergroups matter only through the
   * count left over at a flush, which the flushing tuple sees if its supergroup is absent from the closed window.
   */
  lemma {:induction false} RunIsAlone<X, G(!new), K(!new), A(!new), S(!new), O>(q: Query<X, G, K, A, S, O>, k: K,
      ins: seq<(X, bool)>, tr: seq<Snapshot<G, K, A, S>>, n: nat)
    requires Trace(q, ins, tr) && n <= |ins|
    ensures HistoryOf(q, tr[n], k) == RunAlone(q, k, ins[..n], LeftOvers(q, tr, n), HistoryOf(q, tr[0], k))
  {
    hide Sound, Step, HistoryOf, Alone, LastCount;
    if n > 0 {
      var m := n - 1;
      RunIsAlone(q, k, ins, tr, m);
      assert Step(q, ins[m].0, ins[m].1, tr[m], tr[m + 1]);
      StepIsAlone(q, k, ins[m].0, ins[m].1, tr[m], tr[n]);
      assert ins[..n][..m] == ins[..m] && LeftOvers(q, tr, n)[..m] == LeftOvers(q, tr, m);
    }
  }

  predicate Own<X, G, K(==), A, S, O>(q: Query<X, G, K, A, S, O>, k: K, x: X) {
    q.group(x).Some? && q.super(q.group(x).value) == k
  }

  /** Two inputs with the same flushes and the same tuples of supergroup k at the same places. */
  ghost predicate SameFor<X, G, K, A, S, O>(q: Query<X, G, K, A, S, O>, k: K, a: seq<(X, bool)>, b: seq<(X, bool)>) {
    && |a| == |b|
    && forall i :: 0 <= i < |a| ==>
         && a[i].1 == b[i].1 && (Own(q, k, a[i].0) <==> Own(q, k, b[i].0))
         && (Own(q, k, a[i].0) ==> a[i].0 == b[i].0)
  }

  /** One input does the same to the supergroup, unless it flushes and enters a supergroup that is absent. */
  lemma AloneSame<X, G(!new), K(!new), A, S, O>(q: Query<X, G, K, A, S, O>, k: K, x: X, y: X, needs: bool, c: int,
      d: int, h: History<G, A, S>)
    requires (Own(q, k, x) <==> Own(q, k, y)) && (Own(q, k, x) ==> x == y)
    requires needs && Own(q, k, x) ==> h.now.Some?
    ensures Alone(q, k, x, needs, c, h) == Alone(q, k, y, needs, d, h)
  {
    hide Kept, Amend, Held, Trim, Fold;
  }

  /**
   * Two runs in which supergroup k starts with the same history and gets the same tuples and flushes give it the same
   * history, whatever the other supergroups get, if it is present whenever one of its own tuples brings a flush.
   */
  lemma {:induction false} SupergroupIsolated<X, G(!new), K(!new), A(!new), S(!new), O>(q: Query<X, G, K, A, S, O>,
      k: K, insA: seq<(X, bool)>, trA: seq<Snapshot<G, K, A, S>>, insB: seq<(X, bool)>,
      trB: seq<Snapshot<G, K, A, S>>, n: nat)
    requires Trace(q, insA, trA) && Trace(q, insB, trB) && SameFor(q, k, insA, insB) && n <= |insA|
    requires HistoryOf(q, trA[0], k) == HistoryOf(q, trB[0], k)
    requires forall i :: 0 <= i < |insA| && insA[i].1 && Own(q, k, insA[i].0) ==> HistoryOf(q, trA[i], k).now.Some?
    ensures HistoryOf(q, trA[n], k) == HistoryOf(q, trB[n], k)
  {
    hide Sound, Step, HistoryOf, Alone, LastCount, Own;
    if n > 0 {
      var m := n - 1;
      SupergroupIsolated(q, k, insA, trA, insB, trB, m);
      var x, y := insA[m], insB[m];
      assert Step(q, x.0, x.1, trA[m], trA[m + 1]) && Step(q, y.0, y.1, trB[m], trB[m + 1]);
      StepIsAlone(q, k, x.0, x.1, trA[m], trA[n]);
      StepIsAlone(q, k, y.0, y.1, trB[m], trB[n]);
      AloneSame(q, k, x.0, y.0, x.1, LastCount(q, trA[m].st, trA[m].at), LastCount(q, trB[m].st, trB[m].at),
                HistoryOf(q, trA[m], k));
    }
  }

  /** The count left over is the number of groups, before the final cleaning, of the last supergroup that it visits. */
  lemma LastCountIs<X, G(!new), K(!new), A, S, O>(q: Query<X, G, K, A, S, O>, gt: T.Table<G, A>, st: T.Table<K, S>,
      at: T.Table<K, Attr<G>>)
    requires SideOk(q, gt, st, at)
    ensures var supers := T.Items(st);
            if supers == [] then LastCount(q, st, at) == 0 else
            var m := View(q, gt, st, at, supers[|supers| - 1].key);
            m.Some? && LastCount(q, st, at) == |m.value.members|
  {
    hide T.Has, T.Get, T.Items, T.Valid, CountsOk, T.UniqueKeys;
    if T.Items(st) != [] {
      var k := T.Items(st)[|T.Items(st)| - 1].key;
      T.HasIffStored(st, q.superHash, k);
      ListStored(q, gt, st, at, k);
    }
  }

  /** With one supergroup, or none, the count left over is its number of groups, or zero. */
  lemma OnlyOne<X, G(!new), K(!new), A, S, O>(q: Query<X, G, K, A, S, O>, gt: T.Table<G, A>, st: T.Table<K, S>,
      at: T.Table<K, Attr<G>>, k: K)
    requires SideOk(q, gt, st, at) && forall j :: j != k ==> View(q, gt, st, at, j).None?
    ensures var m := View(q, gt, st, at, k); LastCount(q, st, at) == if m.Some? then |m.value.members| else 0
  {
    hide T.Has, T.Get, T.Items, T.Valid, CountsOk, T.UniqueKeys;
    T.HasIffStored(st, q.superHash, k);
    LastCountIs(q, gt, st, at);
    if T.Items(st) != [] {
      assert T.Items(st)[|T.Items(st)| - 1].key == k;
    }
  }

  /** A predicate that admits a tuple if it sees no groups; every group is a supergroup. */
  function FirstOnly(): Query<int, int, int, int, int, int> {
    Query(x => if x < 0 then None else Some(x), g => g, (x, g) => 0, (x, g, s, n) => 0, (x, g, s, n) => (n == 0, s),
          (x, g, s) => s, (g, a, s) => s, (s, n) => s, (x, g, s, n) => (0, s), (x, g, a, s, n) => (a, s),
          (g, s, n) => (false, s), (final, g, a, s, n) => (true, s), (g, a, s, n) => None,
          g => if g < 0 then 0 else g, k => if k < 0 then 0 else k)
  }

  /** A first input without a flush, from nothing, leaves at most its own supergroup. */
  lemma FirstInput(x: int, a: Snapshot<int, int, int, int>, b: Snapshot<int, int, int, int>)
    requires var q := FirstOnly(); Sound(q, a) && Sound(q, b) && Step(q, x, false, a, b)
    requires Blank(a.gt, a.st, a.at) && Blank(a.oldGt, a.oldSt, a.oldAt)
    ensures LastCount(FirstOnly(), b.st, b.at) == if x < 0 then 0 else 1
    ensures HistoryOf(FirstOnly(), b, 1).now == FirstView(x, 1)
  {
    hide SideOk, ClosedOk, Step, View, Before, LastCount, Blank, FirstOnly;
    var q := FirstOnly();
    forall j: int | j != x ensures View(q, b.gt, b.st, b.at, j).None? { FirstViewIs(x, a, b, j); }
    FirstViewIs(x, a, b, 1);
    FirstViewIs(x, a, b, x);
    OnlyOne(q, b.gt, b.st, b.at, x);
  }

  lemma FirstViewIs(x: int, a: Snapshot<int, int, int, int>, b: Snapshot<int, int, int, int>, j: int)
    requires var q := FirstOnly(); Sound(q, a) && Sound(q, b) && Step(q, x, false, a, b)
    requires Blank(a.gt, a.st, a.at) && Blank(a.oldGt, a.oldSt, a.oldAt)
    ensures View(FirstOnly(), b.gt, b.st, b.at, j) == FirstView(x, j)
  {
    hide SideOk, ClosedOk, Step, View, Before, LastCount, Blank, FirstOnly, Alone;
    var q := FirstOnly();
    StepIsAlone(q, j, x, false, a, b);
    FreshHistory(q, a, j);
    FirstAlone(x, j, LastCount(q, a.st, a.at));
  }

  function FirstView(x: int, j: int): Option<Sample<int, int, int>> {
    if j == x && x >= 0 then Some(Sample(0, [T.Item(x, 0)])) else None
  }

  lemma FirstAlone(x: int, j: int, cd: int)
    ensures Alone(FirstOnly(), j, x, false, cd, History(None, None)).now == FirstView(x, j)
  {
  }

  /**
   * Without the condition supergroups interfere: in two runs from nothing supergroup 1 gets the same tuple and the same
   * flush, and only in the one where supergroup 0 had no tuple before is it admitted.
   */
  lemma SupergroupsInterfere(trA: seq<Snapshot<int, int, int, int>>, trB: seq<Snapshot<int, int, int, int>>)
    requires Trace(FirstOnly(), [(0, false), (1, true)], trA) && Trace(FirstOnly(), [(-1, false), (1, true)], trB)
    requires Blank(trA[0].gt, trA[0].st, trA[0].at) && Blank(trA[0].oldGt, trA[0].oldSt, trA[0].oldAt)
    requires Blank(trB[0].gt, trB[0].st, trB[0].at) && Blank(trB[0].oldGt, trB[0].oldSt, trB[0].oldAt)
    ensures SameFor(FirstOnly(), 1, [(0, false), (1, true)], [(-1, false), (1, true)])
    ensures HistoryOf(FirstOnly(), trA[2], 1).now == Some(Sample(0, []))
    ensures HistoryOf(FirstOnly(), trB[2], 1).now == Some(Sample(0, [T.Item(1, 0)]))
  {
    var q := FirstOnly();
    hide Sound, Step, LastCount, Blank, HistoryOf;
    var insA, insB := [(0, false), (1, true)], [(-1, false), (1, true)];
    assert Step(q, insA[0].0, insA[0].1, trA[0], trA[1]) && Step(q, insA[1].0, insA[1].1, trA[1], trA[2]);
    assert Step(q, insB[0].0, insB[0].1, trB[0], trB[1]) && Step(q, insB[1].0, insB[1].1, trB[1], trB[2]);
    FirstInput(0, trA[0], trA[1]);
    FirstInput(-1, trB[0], trB[1]);
    StepIsAlone(q, 1, 1, true, trA[1], trA[2]);
    StepIsAlone(q, 1, 1, true, trB[1], trB[2]);
  }

  // ------------------------------------------------ output

  lemma ItemIffGet<K, V>(t: T.Table<K, V>, hash: K -> nat, x: T.Item<K, V>)
    requires T.Valid(t, hash) && T.UniqueKeys(T.Items(t)) && |t.chains| > 0
    ensures x in T.Items(t) <==> T.Has(t, hash, x.key) && T.Get(t, hash, x.key) == x.val
  {
    hide T.Has, T.Get, T.Items, T.Valid, T.UniqueKeys;
    T.HasIffStored(t, hash, x.key);
    if x in T.Items(t) {
      var i: nat :| i < |T.Items(t)| && T.Items(t)[i] == x;
      L.StoredIs(t, hash, i);
    }
    if T.Has(t, hash, x.key) {
      var i: nat :| i < |T.Items(t)| && T.Items(t)[i].key == x.key;
      L.StoredIs(t, hash, i);
    }
  }

  /** The stored groups of a supergroup are those of its view. */
  lemma ItemIffMember<X, G(!new), K(!new), A, S, O>(q: Query<X, G, K, A, S, O>, gt: T.Table<G, A>, st: T.Table<K, S>,
      at: T.Table<K, Attr<G>>, x: T.Item<G, A>)
    requires SideOk(q, gt, st, at)
    ensures var m := View(q, gt, st, at, q.super(x.key)); x in T.Items(gt) <==> m.Some? && x in m.value.members
  {
    hide T.Has, T.Get, T.Items, T.Valid, T.UniqueKeys, T.NoDup;
    ItemIffGet(gt, q.hash, x);
    var k := q.super(x.key);
    if T.Has(at, q.superHash, k) {
      ListStored(q, gt, st, at, k);
      var l := T.Get(at, q.superHash, k).list;
      assert AttrOk(q, gt, T.Get(at, q.superHash, k), k);
      var ms := Load(q, gt, l);
      if T.Has(gt, q.hash, x.key) {
        var i :| 0 <= i < |l| && l[i] == x.key;
        assert ms[i] in ms;
      }
    }
  }

  /** Its output is made from the supergroup's state and the number of its groups. */
  lemma SampledIs<X, G(!new), K(!new), A, S, O>(q: Query<X, G, K, A, S, O>, gt: T.Table<G, A>, st: T.Table<K, S>,
      at: T.Table<K, Attr<G>>, x: T.Item<G, A>)
    requires SideOk(q, gt, st, at)
    ensures var m := View(q, gt, st, at, q.super(x.key));
            m.Some? ==>
              var o := q.output(x.key, x.val, m.value.state, |m.value.members|);
              Sampled(q, st, at, x) == if o.Some? then [o.value] else []
  {
    hide T.Has, T.Get, TablesOk, CountsOk;
    var k := q.super(x.key);
    if T.Has(at, q.superHash, k) { ListStored(q, gt, st, at, k); }
  }

  /**
   * The window that input i closes holds, each once, exactly the groups that the reference keeps when it closes the
   * window of their supergroup alone, and what it outputs for each is made from the reference's final state and count.
   */
  lemma WindowIsReference<X, G(!new), K(!new), A(!new), S(!new), O>(q: Query<X, G, K, A, S, O>, ins: seq<(X, bool)>,
      tr: seq<Snapshot<G, K, A, S>>, i: nat, x: T.Item<G, A>)
    requires Trace(q, ins, tr) && i < |ins| && ins[i].1
    ensures T.UniqueKeys(T.Items(tr[i + 1].oldGt))
    ensures var k := q.super(x.key);
            var b := tr[i + 1];
            var m := RunAlone(q, k, ins[..i], LeftOvers(q, tr, i), HistoryOf(q, tr[0], k)).now;
            && (x in T.Items(b.oldGt) <==> m.Some? && x in Close(q, m.value).members)
            && (m.Some? ==>
                  var f := Close(q, m.value);
                  var o := q.output(x.key, x.val, f.state, |f.members|);
                  Sampled(q, b.oldSt, b.oldAt, x) == if o.Some? then [o.value] else [])
  {
    hide SideOk, T.Items, View, Before, Close, Sampled, WindowClosed, RunAlone, TakenAfresh, T.UniqueKeys, ClosedOk;
    var a, b := tr[i], tr[i + 1];
    var w := Window(a.gt, a.st, a.at, b.oldGt, b.oldSt, b.oldAt);
    assert Step(q, ins[i].0, ins[i].1, a, b) && Sound(q, a);
    CloseIs(q, w, q.super(x.key));
    SideTables(q, w.gt, w.st, w.at);
    ItemIffMember(q, w.gt, w.st, w.at, x);
    SampledIs(q, w.gt, w.st, w.at, x);
    RunIsAlone(q, q.super(x.key), ins, tr, i);
  }

  /**
   * A run from the start: what is output, followed by what is still due, is what the windows closed by its flushes owe;
   * and every supergroup has at every point the history it would have alone.
   */
  method SampleRun<X, G(==, !new), K(==, !new), A(!new), S(!new), O>(q: Query<X, G, K, A, S, O>, ins: seq<(X, bool)>)
      returns (op: CleanOperator<X, G, K, A, S, O>, out: seq<O>, ghost tr: seq<Snapshot<G, K, A, S>>)
    ensures fresh(op) && op.q == q && op.Valid() && Trace(q, ins, tr) && tr[|ins|] == Now(op)
    ensures out + op.Left() == Due(q, Windows(ins, tr))
    ensures forall k, n: nat :: n <= |ins| ==>
              HistoryOf(q, tr[n], k) == RunAlone(q, k, ins[..n], LeftOvers(q, tr, n), History(None, None))
  {
    hide SideOk, ClosedOk, T.Items, RunAlone, Step, Due, View, Before, Blank, Windows, AllSampled;
    op := new CleanOperator(q);
    ghost var start := Now(op);
    assert Blank(start.gt, start.st, start.at) && Blank(start.oldGt, start.oldSt, start.oldAt);
    out, tr := AcceptAll(op, ins);
    forall k, n: nat | n <= |ins|
      ensures HistoryOf(q, tr[n], k) == RunAlone(q, k, ins[..n], LeftOvers(q, tr, n), History(None, None))
    {
      RunIsAlone(q, k, ins, tr, n);
      FreshHistory(q, start, k);
    }
  }

  lemma FreshHistory<X, G(!new), K(!new), A, S, O>(q: Query<X, G, K, A, S, O>, s: Snapshot<G, K, A, S>, k: K)
    requires Sound(q, s) && Blank(s.gt, s.st, s.at) && Blank(s.oldGt, s.oldSt, s.oldAt)
    ensures HistoryOf(q, s, k) == History(None, None)
  {
    hide T.Has, T.Get, T.Items, T.Valid, CountsOk, T.UniqueKeys;
    NothingYet(q, s.gt, s.st, s.at, k);
    L.EmptyHas(s.oldSt, q.superHash, k);
  }
}
