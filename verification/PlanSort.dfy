/** Topological sort of the plan by repeated removal of leaves. */
module PlanSort {
  import opened Options
  import opened Plan
  import T = Table

  // ------------------------------------------------ adjacency lists shrink to the unsorted children

  /** The entries of s that are not done. */
  function Open(s: seq<nat>, done: seq<nat>): seq<nat> {
    if s == [] then [] else (if s[0] in done then [] else [s[0]]) + Open(s[1..], done)
  }

  lemma {:induction false} OpenMember(s: seq<nat>, done: seq<nat>, c: nat)
    ensures c in Open(s, done) <==> c in s && c !in done
  {
    if s != [] {
      OpenMember(s[1..], done, c);
    }
  }

  lemma {:induction false} OpenSame(s: seq<nat>, done: seq<nat>, i: nat)
    requires i !in s
    ensures Open(s, done + [i]) == Open(s, done)
  {
    if s != [] { OpenSame(s[1..], done, i); }
  }

  /** Removing a newly sorted node from a list leaves the entries that are still open. */
  lemma {:induction false} OpenDone(s: seq<nat>, done: seq<nat>, i: nat)
    requires T.NoDup(s) && i !in done
    ensures T.Without(Open(s, done), i) == Open(s, done + [i])
  {
    if s != [] {
      var rest := Open(s[1..], done);
      if s[0] == i {
        assert i !in s[1..];
        OpenSame(s[1..], done, i);
        assert Open(s, done) == [i] + rest && ([i] + rest)[1..] == rest;
      } else {
        OpenDone(s[1..], done, i);
        if s[0] !in done {
          assert Open(s, done) == [s[0]] + rest && ([s[0]] + rest)[1..] == rest;
        } else {
          assert [] + rest == rest && [] + Open(s[1..], done + [i]) == Open(s[1..], done + [i]);
        }
      }
    }
  }

  lemma NotFirst(s: seq<nat>, k: nat, i: nat)
    requires 0 < k <= |s| && i !in s[..k]
    ensures s[0] != i && i !in s[1..][..k - 1]
  {
    assert s[0] == s[..k][0] && s[1..][..k - 1] == s[..k][1..];
  }

  lemma {:induction false} WithoutFound(s: seq<nat>, k: nat, i: nat)
    requires k < |s| && i !in s[..k] && s[k] == i
    ensures T.Without(s, i) == s[..k] + s[k + 1..]
  {
    if k == 0 {
      assert [] + s[1..] == s[1..];
    } else {
      NotFirst(s, k, i);
      WithoutFound(s[1..], k - 1, i);
      assert [s[0]] + s[1..][..k - 1] == s[..k] && s[1..][k..] == s[k + 1..];
    }
  }

  lemma {:induction false} WithoutMissing(s: seq<nat>, i: nat)
    requires i !in s
    ensures T.Without(s, i) == s
  {
    if s != [] {
      assert i !in s[1..] && s[0] in s;
      WithoutMissing(s[1..], i);
      assert [s[0]] + s[1..] == s;
    }
  }

  method EraseValue(s: seq<nat>, i: nat) returns (r: seq<nat>)
    ensures r == T.Without(s, i)
  {
    var k := 0;
    while k < |s|
      invariant k <= |s| && i !in s[..k]
    {
      if s[k] == i {
        WithoutFound(s, k, i);
        return s[..k] + s[k + 1..];
      }
      k := k + 1;
    }
    assert s[..k] == s;
    WithoutMissing(s, i);
    return s;
  }

  // ------------------------------------------------ the sort

  ghost predicate Graph(adj: seq<seq<nat>>) {
    forall j :: 0 <= j < |adj| ==> T.NoDup(adj[j]) && forall c :: c in adj[j] ==> c < |adj|
  }

  /** A duplicate-free order in which every node comes after its children. */
  ghost predicate ChildrenFirst(adj: seq<seq<nat>>, order: seq<nat>) {
    && T.NoDup(order)
    && (forall i :: 0 <= i < |order| ==> order[i] < |adj| && forall c :: c in adj[order[i]] ==> c in order[..i])
  }

  /** The working lists and flags while `order` has been sorted. */
  ghost predicate Working(adj0: seq<seq<nat>>, adj: seq<seq<nat>>, flags: seq<bool>, order: seq<nat>) {
    && |adj| == |adj0| == |flags|
    && (forall j :: 0 <= j < |adj| ==> adj[j] == Open(adj0[j], order))
    && (forall j :: 0 <= j < |flags| ==> (flags[j] <==> j in order))
    && ChildrenFirst(adj0, order)
  }

  lemma SortNext(adj0: seq<seq<nat>>, adj: seq<seq<nat>>, flags: seq<bool>, order: seq<nat>, i: nat)
    requires Working(adj0, adj, flags, order) && i < |adj0| && !flags[i] && adj[i] == []
    ensures ChildrenFirst(adj0, order + [i])
  {
    var next := order + [i];
    forall k | 0 <= k < |next| ensures next[k] < |adj0| && forall c :: c in adj0[next[k]] ==> c in next[..k] {
      if k < |order| {
        assert next[..k] == order[..k];
      } else {
        assert next[..k] == order;
        forall c | c in adj0[i] ensures c in order { OpenMember(adj0[i], order, c); }
      }
    }
  }

  method TopSort(adj0: seq<seq<nat>>) returns (order: seq<nat>)
    requires Graph(adj0)
    ensures ChildrenFirst(adj0, order)
    ensures forall k: nat :: k < |adj0| && k !in order ==> Open(adj0[k], order) != []
  {
    hide Open, ChildrenFirst, T.NoDup;
    var n := |adj0|;
    var adj := new seq<nat>[n](j requires 0 <= j < n => adj0[j]);
    var flags := new bool[n](_ => false);
    order := [];
    Start(adj0, adj[..], flags[..]);
    var found := true;
    while found
      invariant adj.Length == flags.Length == n && Working(adj0, adj[..], flags[..], order)
      invariant |order| <= n
      invariant !found ==> forall k: nat :: k < n && k !in order ==> Open(adj0[k], order) != []
      decreases n - |order|, found
    {
      found := false;
      ghost var before := |order|;
      for i := 0 to n
        invariant Working(adj0, adj[..], flags[..], order)
        invariant before <= |order| <= n && (found <==> |order| > before)
        invariant !found ==> forall k: nat :: k < i && k !in order ==> Open(adj0[k], order) != []
      {
        if !flags[i] && adj[i] == [] {
          SortNext(adj0, adj[..], flags[..], order, i);
          OrderSize(adj0, order + [i]);
          flags[i] := true;
          EraseEverywhere(adj0, adj, i, order);
          order := order + [i];
          found := true;
        }
      }
    }
  }

  lemma Start(adj0: seq<seq<nat>>, adj: seq<seq<nat>>, flags: seq<bool>)
    requires adj == adj0 && |flags| == |adj0| && forall j :: 0 <= j < |flags| ==> !flags[j]
    ensures Working(adj0, adj, flags, [])
  {
    forall j | 0 <= j < |adj0| ensures Open(adj0[j], []) == adj0[j] { OpenAll(adj0[j]); }
  }

  lemma {:induction false} OpenAll(s: seq<nat>)
    ensures Open(s, []) == s
  {
    if s != [] { OpenAll(s[1..]); }
  }

  lemma OrderSize(adj0: seq<seq<nat>>, order: seq<nat>)
    requires ChildrenFirst(adj0, order)
    ensures |order| <= |adj0|
  {
    Pigeonhole(order, |adj0|);
  }

  /** Remove a sorted node from the adjacency lists of its parents. */
  method EraseEverywhere(adj0: seq<seq<nat>>, adj: array<seq<nat>>, i: nat, ghost order: seq<nat>)
    requires Graph(adj0) && adj.Length == |adj0| && i !in order
    requires forall j :: 0 <= j < adj.Length ==> adj[j] == Open(adj0[j], order)
    modifies adj
    ensures forall j :: 0 <= j < adj.Length ==> adj[j] == Open(adj0[j], order + [i])
  {
    hide Open, T.Without, T.NoDup;
    for j := 0 to adj.Length
      invariant forall k :: 0 <= k < adj.Length ==> adj[k] == Open(adj0[k], if k < j then order + [i] else order)
    {
      OpenDone(adj0[j], order, i);
      adj[j] := EraseValue(adj[j], i);
    }
  }

  // ------------------------------------------------ the plan's nodes in sorted order

  /** What the sort guarantees: children first, and a node left out has a child left out. */
  ghost predicate SortedPlan(plan: seq<Node>, list: seq<nat>, sorted: seq<nat>) {
    && T.NoDup(sorted)
    && (forall i :: 0 <= i < |sorted| ==> sorted[i] in list)
    && (forall i :: 0 <= i < |sorted| ==> ChildrenIn(plan, sorted[i], sorted[..i]))
    && (forall v :: v in list && v !in sorted ==> StuckAt(plan, list, sorted, v))
  }

  ghost predicate StuckAt(plan: seq<Node>, list: seq<nat>, sorted: seq<nat>, v: nat) {
    v < |plan| && exists c :: c in Children(plan, v) && c in list && c !in sorted
  }

  /** Along a path, positions in the sorted order go down. */
  lemma {:induction false} PathDescends(plan: seq<Node>, list: seq<nat>, sorted: seq<nat>, p: seq<nat>,
      i: nat) returns (j: nat)
    requires SortedPlan(plan, list, sorted) && IsPath(plan, p) && i < |sorted| && p[0] == sorted[i]
    ensures j <= i && p[|p| - 1] == sorted[j] && (|p| > 1 ==> j < i)
  {
    hide T.NoDup, StuckAt;
    if |p| == 1 {
      j := i;
    } else {
      assert ChildrenIn(plan, sorted[i], sorted[..i]);
      var k: nat :| k < i && sorted[..i][k] == p[1];
      j := PathDescends(plan, list, sorted, p[1..], k);
    }
  }

  lemma CompleteIsAcyclic(plan: seq<Node>, root: nat, list: seq<nat>, sorted: seq<nat>)
    requires SortedPlan(plan, list, sorted) && (forall v :: v in list <==> Reachable(plan, root, v))
    requires forall v :: v in list ==> v in sorted
    ensures Acyclic(plan, root)
  {
    hide Reachable, IsPath, StuckAt;
    forall v, p | Reachable(plan, root, v) && Connects(plan, p, v, v) ensures |p| == 1 {
      assert v in list;
      var i: nat :| i < |sorted| && sorted[i] == v;
      var j := PathDescends(plan, list, sorted, p, i);
      PathNonempty(plan, p);
    }
  }

  lemma PathNonempty(plan: seq<Node>, p: seq<nat>)
    requires IsPath(plan, p)
    ensures |p| >= 1
  {
  }

  /** Every node is a descendant of the root, so a complete order ends with the root. */
  lemma RootIsLast(plan: seq<Node>, root: nat, list: seq<nat>, sorted: seq<nat>)
    requires SortedPlan(plan, list, sorted) && root in list && (forall v :: v in list <==> Reachable(plan, root, v))
    requires forall v :: v in list ==> v in sorted
    ensures sorted != [] && sorted[|sorted| - 1] == root
  {
    hide IsPath, StuckAt, ChildrenIn;
    var i: nat :| i < |sorted| && sorted[i] == root;
    var x := sorted[|sorted| - 1];
    assert Reachable(plan, root, x);
    var p :| Connects(plan, p, root, x);
    var j := PathDescends(plan, list, sorted, p, i);
  }

  // ------------------------------------------------ nodes left out lie above a cycle

  ghost predicate Left(plan: seq<Node>, list: seq<nat>, sorted: seq<nat>, v: nat) {
    v in list && v !in sorted
  }

  /** A walk of n steps through nodes left out. */
  lemma {:induction false} StuckWalk(plan: seq<Node>, list: seq<nat>, sorted: seq<nat>, v: nat,
      n: nat) returns (w: seq<nat>)
    requires SortedPlan(plan, list, sorted) && Left(plan, list, sorted, v) && (forall u :: u in list ==> u < |plan|)
    ensures IsPath(plan, w) && |w| == n + 1 && w[0] == v && forall i :: 0 <= i < |w| ==> Left(plan, list, sorted, w[i])
    decreases n
  {
    hide SortedPlan, IsPath;
    if n == 0 {
      w := [v] + [];
      PathCons(plan, v, []);
    } else {
      var c := LeftChild(plan, list, sorted, v);
      var rest := StuckWalk(plan, list, sorted, c, n - 1);
      w := [v] + rest;
      PathCons(plan, v, rest);
    }
  }

  lemma PathCons(plan: seq<Node>, v: nat, rest: seq<nat>)
    requires v < |plan| && (rest == [] || (IsPath(plan, rest) && rest[0] in Children(plan, v)))
    ensures IsPath(plan, [v] + rest)
  {
    assert ([v] + rest)[1..] == rest;
  }

  lemma LeftChild(plan: seq<Node>, list: seq<nat>, sorted: seq<nat>, v: nat) returns (c: nat)
    requires SortedPlan(plan, list, sorted) && Left(plan, list, sorted, v)
    ensures v < |plan| && c in Children(plan, v) && Left(plan, list, sorted, c)
  {
    hide T.NoDup, ChildrenIn;
    assert StuckAt(plan, list, sorted, v);
    c :| c in Children(plan, v) && c in list && c !in sorted;
  }

  lemma {:induction false} PathTail(plan: seq<Node>, p: seq<nat>, i: nat)
    requires IsPath(plan, p) && i < |p|
    ensures IsPath(plan, p[i..])
  {
    if i > 0 {
      PathTail(plan, p[1..], i - 1);
      assert p[1..][i - 1..] == p[i..];
    }
  }

  lemma {:induction false} PathHead(plan: seq<Node>, p: seq<nat>, j: nat)
    requires IsPath(plan, p) && 0 < j <= |p|
    ensures IsPath(plan, p[..j])
  {
    if j > 1 {
      PathHead(plan, p[1..], j - 1);
      assert p[1..][..j - 1] == p[..j][1..];
    }
  }

  lemma StuckCycle(plan: seq<Node>, root: nat, list: seq<nat>, sorted: seq<nat>, v: nat)
    requires SortedPlan(plan, list, sorted) && Left(plan, list, sorted, v) && (forall u :: u in list ==> u < |plan|)
    requires forall u :: u in list <==> Reachable(plan, root, u)
    ensures !Acyclic(plan, root)
  {
    hide SortedPlan, Reachable;
    var w := StuckWalk(plan, list, sorted, v, |plan|);
    if T.NoDup(w) {
      Pigeonhole(w, |plan|);
    }
    var i, j :| 0 <= i < j < |w| && w[i] == w[j];
    PathTail(plan, w, i);
    PathHead(plan, w[i..], j - i + 1);
    var p := w[i..][..j - i + 1];
    assert Left(plan, list, sorted, w[i]);
    assert Reachable(plan, root, w[i]) && Connects(plan, p, w[i], w[i]) && |p| > 1;
  }

  // ------------------------------------------------ the constructor's sort

  /** Adjacency lists of the numbered nodes. */
  method Adjacency(plan: seq<Node>, root: nat, list: seq<nat>, num: map<nat, nat>) returns (adj: seq<seq<nat>>)
    requires Numbered(plan, root, list, num) && ClosedUnder(plan, list)
    ensures |adj| == |list| && Graph(adj)
    ensures forall i :: 0 <= i < |list| ==> AdjacentTo(plan, list, num, i, adj[i])
  {
    hide Numbered, ClosedUnder, AdjacentTo, T.NoDup;
    adj := [];
    for i := 0 to |list|
      invariant |adj| == i
      invariant forall k :: 0 <= k < i ==> AdjacentTo(plan, list, num, k, adj[k])
      invariant forall k :: 0 <= k < i ==> T.NoDup(adj[k]) && forall c :: c in adj[k] ==> c < |list|
    {
      var one := AdjacencyOf(plan, root, list, num, i);
      adj := adj + [one];
    }
  }

  method AdjacencyOf(plan: seq<Node>, root: nat, list: seq<nat>, num: map<nat, nat>, i: nat) returns (one: seq<nat>)
    requires Numbered(plan, root, list, num) && ClosedUnder(plan, list) && i < |list|
    ensures AdjacentTo(plan, list, num, i, one) && T.NoDup(one) && forall c :: c in one ==> c < |list|
  {
    hide Reachable, T.NoDup, AdjacentTo;
    var u := list[i];
    one := [];
    if plan[u].left.Some? {
      assert plan[u].left.value in Children(plan, u);
      one := one + [num[plan[u].left.value]];
    }
    if plan[u].right.Some? && plan[u].left != plan[u].right {
      assert plan[u].right.value in Children(plan, u);
      one := one + [num[plan[u].right.value]];
    }
    AdjacencyOk(plan, root, list, num, i, one);
  }

  ghost predicate AdjacentTo(plan: seq<Node>, list: seq<nat>, num: map<nat, nat>, i: nat, a: seq<nat>) {
    && i < |list| && list[i] < |plan| && |a| == |Children(plan, list[i])|
    && forall k :: 0 <= k < |a| ==> a[k] < |list| && list[a[k]] == Children(plan, list[i])[k]
  }

  lemma AdjacencyOk(plan: seq<Node>, root: nat, list: seq<nat>, num: map<nat, nat>, i: nat, a: seq<nat>)
    requires Numbered(plan, root, list, num) && ClosedUnder(plan, list) && i < |list|
    requires |a| == |Children(plan, list[i])|
    requires forall k :: 0 <= k < |a| ==> Children(plan, list[i])[k] in num && a[k] == num[Children(plan, list[i])[k]]
    ensures AdjacentTo(plan, list, num, i, a) && T.NoDup(a) && forall c :: c in a ==> c < |list|
  {
    hide Reachable;
    forall k | 0 <= k < |a| ensures a[k] < |list| && list[a[k]] == Children(plan, list[i])[k] {
      var c := Children(plan, list[i])[k];
      var j: nat :| j < |list| && list[j] == c;
      assert num[list[j]] == j;
    }
  }

  /** The order of numbers, translated back to nodes, is a sorted plan. */
  lemma Translate(plan: seq<Node>, root: nat, list: seq<nat>, num: map<nat, nat>, adj: seq<seq<nat>>, order: seq<nat>,
      sorted: seq<nat>)
    requires Numbered(plan, root, list, num) && |adj| == |list|
    requires forall i :: 0 <= i < |list| ==> AdjacentTo(plan, list, num, i, adj[i])
    requires ChildrenFirst(adj, order) && forall k: nat :: k < |adj| && k !in order ==> Open(adj[k], order) != []
    requires |sorted| == |order| && forall i :: 0 <= i < |order| ==> order[i] < |list| && sorted[i] == list[order[i]]
    ensures SortedPlan(plan, list, sorted)
  {
    hide Reachable, Open, IsPath, StuckAt, T.NoDup, AdjacentTo, ChildrenFirst, ChildrenIn;
    NoDupOrder(adj, order);
    NoDupThrough(list, order, sorted);
    forall i | 0 <= i < |sorted| ensures ChildrenIn(plan, sorted[i], sorted[..i]) {
      TranslateChildren(plan, list, num, adj, order, sorted, i);
    }
    forall v | v in list && v !in sorted ensures StuckAt(plan, list, sorted, v) {
      TranslateStuck(plan, list, num, adj, order, sorted, v);
    }
  }

  lemma NoDupOrder(adj: seq<seq<nat>>, order: seq<nat>)
    requires ChildrenFirst(adj, order)
    ensures T.NoDup(order)
  {
  }

  /** Distinct entries of a list without duplicates are distinct. */
  lemma NoDupThrough(list: seq<nat>, order: seq<nat>, sorted: seq<nat>)
    requires T.NoDup(list) && T.NoDup(order) && |sorted| == |order|
    requires forall i :: 0 <= i < |order| ==> order[i] < |list| && sorted[i] == list[order[i]]
    ensures T.NoDup(sorted)
  {
    forall i, j | 0 <= i < j < |sorted| ensures sorted[i] != sorted[j] {
      assert order[i] != order[j];
      if order[i] < order[j] {
        assert list[order[i]] != list[order[j]];
      } else {
        assert list[order[j]] != list[order[i]];
      }
    }
  }

  lemma TranslateChildren(plan: seq<Node>, list: seq<nat>, num: map<nat, nat>, adj: seq<seq<nat>>, order: seq<nat>,
      sorted: seq<nat>, i: nat)
    requires |adj| == |list| && ChildrenFirst(adj, order) && i < |order| == |sorted| && order[i] < |list|
    requires AdjacentTo(plan, list, num, order[i], adj[order[i]])
    requires forall i :: 0 <= i < |order| ==> order[i] < |list| && sorted[i] == list[order[i]]
    ensures ChildrenIn(plan, sorted[i], sorted[..i])
  {
    hide T.NoDup;
    var a := adj[order[i]];
    forall c | c in Children(plan, sorted[i]) ensures c in sorted[..i] {
      var k: nat :| k < |a| && Children(plan, sorted[i])[k] == c;
      assert a[k] in a && a[k] in order[..i];
      var j: nat :| j < i && order[..i][j] == a[k];
      assert sorted[..i][j] == c;
    }
  }

  lemma TranslateStuck(plan: seq<Node>, list: seq<nat>, num: map<nat, nat>, adj: seq<seq<nat>>, order: seq<nat>,
      sorted: seq<nat>, v: nat)
    requires T.NoDup(list) && |adj| == |list| && v in list && v !in sorted
    requires forall i :: 0 <= i < |list| ==> AdjacentTo(plan, list, num, i, adj[i])
    requires forall k: nat :: k < |adj| && k !in order ==> Open(adj[k], order) != []
    requires |sorted| == |order| && forall i :: 0 <= i < |order| ==> order[i] < |list| && sorted[i] == list[order[i]]
    ensures StuckAt(plan, list, sorted, v)
  {
    hide Open, AdjacentTo, StuckAt, T.NoDup;
    var i: nat :| i < |list| && list[i] == v;
    assert AdjacentTo(plan, list, num, i, adj[i]);
    NumberSorted(list, order, sorted, i);
    var x := Open(adj[i], order)[0];
    OpenMember(adj[i], order, x);
    AdjacentChild(plan, list, num, i, adj[i], x);
    NumberSorted(list, order, sorted, x);
    StuckBy(plan, list, sorted, v, list[x]);
  }

  lemma AdjacentChild(plan: seq<Node>, list: seq<nat>, num: map<nat, nat>, i: nat, a: seq<nat>, x: nat)
    requires AdjacentTo(plan, list, num, i, a) && x in a
    ensures i < |list| && list[i] < |plan| && x < |list| && list[x] in Children(plan, list[i])
  {
    var k: nat :| k < |a| && a[k] == x;
    assert list[x] == Children(plan, list[i])[k];
  }

  /** A node is in the sorted order exactly when its number is in the order of numbers. */
  lemma NumberSorted(list: seq<nat>, order: seq<nat>, sorted: seq<nat>, x: nat)
    requires T.NoDup(list) && x < |list| && |sorted| == |order|
    requires forall i :: 0 <= i < |order| ==> order[i] < |list| && sorted[i] == list[order[i]]
    ensures x in order <==> list[x] in sorted
  {
    if x in order {
      var j: nat :| j < |order| && order[j] == x;
      assert sorted[j] == list[x];
    }
    if list[x] in sorted {
      var j: nat :| j < |sorted| && sorted[j] == list[x];
      assert list[order[j]] == list[x];
      assert order[j] == x;
    }
  }

  lemma StuckBy(plan: seq<Node>, list: seq<nat>, sorted: seq<nat>, v: nat, c: nat)
    requires v < |plan| && c in Children(plan, v) && c in list && c !in sorted
    ensures StuckAt(plan, list, sorted, v)
  {
  }

  /**
   * sorted_nodes has no duplicates and every node comes after its children.  It is all the nodes reachable from the
   * root, with the root last, if and only if none of them lies on a cycle.
   */
  method SortNodes(plan: seq<Node>, root: nat) returns (sorted: seq<nat>)
    requires WellFormed(plan) && root < |plan|
    ensures T.NoDup(sorted) && forall i :: 0 <= i < |sorted| ==> ChildrenIn(plan, sorted[i], sorted[..i])
    ensures forall v :: v in sorted ==> Reachable(plan, root, v)
    ensures Acyclic(plan, root) <==> forall v :: Reachable(plan, root, v) ==> v in sorted
    ensures Acyclic(plan, root) ==> sorted != [] && sorted[|sorted| - 1] == root
  {
    hide Reachable, Acyclic, T.NoDup, ChildrenIn, StuckAt, Open, WellFormed, Graph, Numbered, ClosedUnder;
    hide ChildrenFirst, AdjacentTo, SortedPlan;
    var list, num := Number(plan, root);
    var adj := Adjacency(plan, root, list, num);
    var order := TopSort(adj);
    OrderInRange(adj, order);
    sorted := seq(|order|, i requires 0 <= i < |order| && order[i] < |list| => list[order[i]]);
    Translate(plan, root, list, num, adj, order, sorted);
    Conclude(plan, root, list, num, sorted);
  }

  lemma OrderInRange(adj: seq<seq<nat>>, order: seq<nat>)
    requires ChildrenFirst(adj, order)
    ensures forall i :: 0 <= i < |order| ==> order[i] < |adj|
  {
  }

  lemma Conclude(plan: seq<Node>, root: nat, list: seq<nat>, num: map<nat, nat>, sorted: seq<nat>)
    requires SortedPlan(plan, list, sorted) && Numbered(plan, root, list, num)
    requires forall v :: v in list <==> Reachable(plan, root, v)
    ensures Acyclic(plan, root) <==> forall v :: Reachable(plan, root, v) ==> v in sorted
    ensures Acyclic(plan, root) ==> sorted != [] && sorted[|sorted| - 1] == root
    ensures forall v :: v in sorted ==> Reachable(plan, root, v)
    ensures T.NoDup(sorted) && forall i :: 0 <= i < |sorted| ==> ChildrenIn(plan, sorted[i], sorted[..i])
  {
    hide Reachable, Acyclic, T.NoDup, ChildrenIn, StuckAt;
    if forall v :: v in list ==> v in sorted {
      CompleteIsAcyclic(plan, root, list, sorted);
      RootIsLast(plan, root, list, sorted);
    } else {
      var v :| v in list && v !in sorted;
      StuckCycle(plan, root, list, sorted, v);
    }
  }
}
