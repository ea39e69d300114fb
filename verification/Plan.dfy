/** The operator plan: numbering the nodes reachable from the root and sorting them topologically. */
module Plan {
  import opened Options
  import T = Table

  datatype Node = Node(left: Option<nat>, right: Option<nat>)

  /** The distinct children of a node. */
  function Children(plan: seq<Node>, u: nat): seq<nat>
    requires u < |plan|
  {
    var n := plan[u];
    (if n.left.Some? then [n.left.value] else [])
    + (if n.right.Some? && n.left != n.right then [n.right.value] else [])
  }

  ghost predicate WellFormed(plan: seq<Node>) {
    forall u: nat :: u < |plan| ==> forall c :: c in Children(plan, u) ==> c < |plan|
  }

  // ------------------------------------------------ paths

  ghost predicate IsPath(plan: seq<Node>, p: seq<nat>) {
    |p| > 0 && p[0] < |plan| && (|p| == 1 || (p[1] in Children(plan, p[0]) && IsPath(plan, p[1..])))
  }

  ghost predicate Connects(plan: seq<Node>, p: seq<nat>, u: nat, v: nat) {
    IsPath(plan, p) && p[0] == u && p[|p| - 1] == v
  }

  ghost predicate Reachable(plan: seq<Node>, u: nat, v: nat) {
    exists p :: Connects(plan, p, u, v)
  }

  /** No node reachable from the root lies on a cycle. */
  ghost predicate Acyclic(plan: seq<Node>, root: nat) {
    forall v, p :: Reachable(plan, root, v) && Connects(plan, p, v, v) ==> |p| == 1
  }

  lemma {:induction false} PathSnoc(plan: seq<Node>, p: seq<nat>, c: nat)
    requires IsPath(plan, p) && p[|p| - 1] < |plan| && c in Children(plan, p[|p| - 1]) && c < |plan|
    ensures IsPath(plan, p + [c])
  {
    if |p| == 1 {
      assert (p + [c])[1..] == [c];
    } else {
      PathSnoc(plan, p[1..], c);
      assert (p + [c])[1..] == p[1..] + [c];
    }
  }

  lemma ReachChild(plan: seq<Node>, root: nat, u: nat, c: nat)
    requires Reachable(plan, root, u) && u < |plan| && c in Children(plan, u) && c < |plan|
    ensures Reachable(plan, root, c)
  {
    var p :| Connects(plan, p, root, u);
    PathSnoc(plan, p, c);
    assert Connects(plan, p + [c], root, c);
  }

  lemma ReachSelf(plan: seq<Node>, u: nat)
    requires u < |plan|
    ensures Reachable(plan, u, u)
  {
    assert Connects(plan, [u], u, u);
  }

  ghost predicate ClosedUnder(plan: seq<Node>, s: seq<nat>) {
    forall i :: 0 <= i < |s| ==> s[i] < |plan| && forall c :: c in Children(plan, s[i]) ==> c in s
  }

  /** A path from a closed set of nodes stays in it. */
  lemma {:induction false} PathStays(plan: seq<Node>, s: seq<nat>, p: seq<nat>)
    requires ClosedUnder(plan, s) && IsPath(plan, p) && p[0] in s
    ensures p[|p| - 1] in s
  {
    if |p| > 1 {
      PathStays(plan, s, p[1..]);
    }
  }

  /** Distinct numbers below n are at most n. */
  lemma Pigeonhole(s: seq<nat>, n: nat)
    requires T.NoDup(s) && forall i :: 0 <= i < |s| ==> s[i] < n
    ensures |s| <= n
  {
    var mine := set i | 0 <= i < |s| :: s[i];
    Distinct(s);
    SubsetSize(mine, Below(n));
  }

  /** The numbers below n. */
  ghost function Below(n: nat): (s: set<nat>)
    ensures |s| == n && forall i :: i in s <==> 0 <= i < n
  {
    if n == 0 then {} else Below(n - 1) + {n - 1}
  }

  lemma {:induction false} Distinct(s: seq<nat>)
    requires T.NoDup(s)
    ensures |set i | 0 <= i < |s| :: s[i]| == |s|
  {
    if s != [] {
      var n := |s| - 1;
      Distinct(s[..n]);
      assert (set i | 0 <= i < |s| :: s[i]) == (set i | 0 <= i < n :: s[..n][i]) + {s[n]};
    }
  }

  lemma {:induction false} SubsetSize(a: set<nat>, b: set<nat>)
    requires a <= b
    ensures |a| <= |b|
  {
    if a != {} {
      var x :| x in a;
      SubsetSize(a - {x}, b - {x});
    }
  }

  // ------------------------------------------------ breadth-first numbering

  ghost predicate Numbered(plan: seq<Node>, root: nat, list: seq<nat>, num: map<nat, nat>) {
    && T.NoDup(list) && |list| >= 1 && list[0] == root
    && (forall v :: v in num <==> v in list)
    && (forall i :: 0 <= i < |list| ==> num[list[i]] == i)
    && (forall i :: 0 <= i < |list| ==> list[i] < |plan| && Reachable(plan, root, list[i]))
  }

  /** Append a child that has no number yet. */
  method Visit(plan: seq<Node>, root: nat, c: Option<nat>, list: seq<nat>, num: map<nat, nat>, ghost u: nat)
      returns (list': seq<nat>, num': map<nat, nat>)
    requires Numbered(plan, root, list, num) && WellFormed(plan)
    requires u in list && u < |plan| && (c.Some? ==> c.value in Children(plan, u))
    ensures Numbered(plan, root, list', num') && list <= list'
    ensures c.Some? ==> c.value in list'
  {
    list', num' := list, num;
    if c.Some? && c.value !in num {
      ReachChild(plan, root, u, c.value);
      num' := num[c.value := |list|];
      list' := list + [c.value];
    }
  }

  /** The list holds exactly the nodes reachable from the root, each once, and the map is its inverse. */
  method Number(plan: seq<Node>, root: nat) returns (list: seq<nat>, num: map<nat, nat>)
    requires WellFormed(plan) && root < |plan|
    ensures Numbered(plan, root, list, num)
    ensures ClosedUnder(plan, list)
    ensures forall v :: v in list <==> Reachable(plan, root, v)
  {
    hide Numbered, ClosedUnder, Reachable, ChildrenIn;
    list, num := [root], map[root := 0];
    var i := 0;
    NumberedStart(plan, root);
    while i < |list|
      invariant Numbered(plan, root, list, num) && i <= |list|
      invariant forall k :: 0 <= k < i ==> ChildrenIn(plan, list[k], list)
      decreases |plan| - i
    {
      NumberedSize(plan, root, list, num);
      ghost var before := list;
      list, num := Expand(plan, root, i, list, num);
      AllGrow(plan, i, before, list);
      i := i + 1;
    }
    Complete(plan, root, list, num);
  }

  lemma NumberedStart(plan: seq<Node>, root: nat)
    requires root < |plan|
    ensures Numbered(plan, root, [root], map[root := 0])
  {
    hide Reachable;
    ReachSelf(plan, root);
  }

  lemma NumberedSize(plan: seq<Node>, root: nat, list: seq<nat>, num: map<nat, nat>)
    requires Numbered(plan, root, list, num)
    ensures |list| <= |plan|
  {
    Pigeonhole(list, |plan|);
  }

  /** Number the children of the i-th node. */
  method Expand(plan: seq<Node>, root: nat, i: nat, list: seq<nat>, num: map<nat, nat>) returns (list': seq<nat>,
      num': map<nat, nat>)
    requires Numbered(plan, root, list, num) && WellFormed(plan) && i < |list|
    ensures Numbered(plan, root, list', num') && list <= list' && ChildrenIn(plan, list[i], list')
  {
    hide Reachable, WellFormed, T.NoDup;
    var u := list[i];
    list', num' := Visit(plan, root, plan[u].left, list, num, u);
    ghost var mid := list';
    assert forall c :: c in list ==> c in mid;
    list', num' := Visit(plan, root, if plan[u].left == plan[u].right then None else plan[u].right, list', num', u);
    assert forall c :: c in mid ==> c in list';
  }

  ghost predicate ChildrenIn(plan: seq<Node>, u: nat, list: seq<nat>) {
    u < |plan| && forall c :: c in Children(plan, u) ==> c in list
  }

  lemma ChildrenGrow(plan: seq<Node>, u: nat, a: seq<nat>, b: seq<nat>)
    requires ChildrenIn(plan, u, a) && a <= b
    ensures ChildrenIn(plan, u, b)
  {
    assert forall c :: c in a ==> c in b;
  }

  lemma AllGrow(plan: seq<Node>, i: nat, a: seq<nat>, b: seq<nat>)
    requires i <= |a| && a <= b && forall k :: 0 <= k < i ==> ChildrenIn(plan, a[k], a)
    ensures forall k :: 0 <= k < i ==> ChildrenIn(plan, b[k], b)
  {
    hide ChildrenIn;
    forall k | 0 <= k < i ensures ChildrenIn(plan, b[k], b) {
      ChildrenGrow(plan, a[k], a, b);
    }
  }

  lemma Complete(plan: seq<Node>, root: nat, list: seq<nat>, num: map<nat, nat>)
    requires Numbered(plan, root, list, num) && forall k :: 0 <= k < |list| ==> ChildrenIn(plan, list[k], list)
    ensures ClosedUnder(plan, list)
    ensures forall v :: v in list <==> Reachable(plan, root, v)
  {
    assert ClosedUnder(plan, list);
    forall v ensures v in list <==> Reachable(plan, root, v) {
      if Reachable(plan, root, v) {
        var p :| Connects(plan, p, root, v);
        PathStays(plan, list, p);
      }
    }
  }
}
