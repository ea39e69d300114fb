/**
 * The executor of an operator tree: its constructor sorts the plan, packets go up a chain, a flush visits every node.
 */
module TreeExecutor {
  import opened Options
  import opened Plan
  import opened Routing
  import PlanSort
  import T = Table

  // ------------------------------------------------ trees

  /** Every node but the root has exactly one parent, the one whose child it is, and is reachable from the root. */
  ghost predicate IsTree(plan: seq<Node>, parent: seq<Option<nat>>, root: nat) {
    && WellFormed(plan) && |parent| == |plan| && root < |plan| && parent[root] == None
    && (forall u: nat, c: nat :: u < |plan| && c in Children(plan, u) ==> c < |plan| && parent[c] == Some(u))
    && (forall v: nat :: v < |plan| && parent[v].Some? ==>
          parent[v].value < |plan| && v in Children(plan, parent[v].value))
    && (forall v: nat :: v < |plan| ==> Reachable(plan, root, v))
  }

  ghost predicate OnCycle(plan: seq<Node>, v: nat) {
    exists q :: Connects(plan, q, v, v) && |q| > 1
  }

  lemma {:induction false} LastEdge(plan: seq<Node>, p: seq<nat>)
    requires IsPath(plan, p) && |p| > 1
    ensures var n := |p|; p[n - 2] < |plan| && p[n - 1] in Children(plan, p[n - 2]) && IsPath(plan, p[..n - 1])
  {
    PlanSort.PathHead(plan, p, |p| - 1);
    if |p| > 2 {
      LastEdge(plan, p[1..]);
    }
  }

  lemma TreeEdge(plan: seq<Node>, parent: seq<Option<nat>>, root: nat, u: nat, c: nat)
    requires IsTree(plan, parent, root) && u < |plan| && c in Children(plan, u)
    ensures c < |plan| == |parent| && parent[c] == Some(u)
  {
    hide Reachable, WellFormed;
  }

  lemma RootHasNone(plan: seq<Node>, parent: seq<Option<nat>>, root: nat)
    requires IsTree(plan, parent, root)
    ensures root < |parent| && parent[root] == None
  {
    hide Reachable, WellFormed;
  }

  /** With one parent per node, the parent of a node on a cycle is on that cycle. */
  lemma ParentOnCycle(plan: seq<Node>, parent: seq<Option<nat>>, root: nat, v: nat)
    requires IsTree(plan, parent, root) && OnCycle(plan, v)
    ensures v < |plan| == |parent| && parent[v].Some? && OnCycle(plan, parent[v].value)
  {
    hide IsTree, IsPath;
    var q :| Connects(plan, q, v, v) && |q| > 1;
    LastEdge(plan, q);
    var u := q[|q| - 2];
    TreeEdge(plan, parent, root, u, v);
    PlanSort.PathCons(plan, u, q[..|q| - 1]);
    assert Connects(plan, [u] + q[..|q| - 1], u, u);
  }

  lemma {:induction false} NoCycleBelow(plan: seq<Node>, parent: seq<Option<nat>>, root: nat, p: seq<nat>)
    requires IsTree(plan, parent, root) && IsPath(plan, p) && p[0] == root
    ensures !OnCycle(plan, p[|p| - 1])
    decreases |p|
  {
    hide IsTree, IsPath, OnCycle;
    PlanSort.PathNonempty(plan, p);
    var v := p[|p| - 1];
    RootHasNone(plan, parent, root);
    if OnCycle(plan, v) {
      ParentOnCycle(plan, parent, root, v);
      if |p| > 1 {
        LastEdge(plan, p);
        TreeEdge(plan, parent, root, p[|p| - 2], v);
        NoCycleBelow(plan, parent, root, p[..|p| - 1]);
      }
    }
  }

  lemma TreeIsAcyclic(plan: seq<Node>, parent: seq<Option<nat>>, root: nat)
    requires IsTree(plan, parent, root)
    ensures Acyclic(plan, root)
  {
    hide IsPath;
    forall v, p | Reachable(plan, root, v) && Connects(plan, p, v, v) ensures |p| == 1 {
      var r :| Connects(plan, r, root, v);
      NoCycleBelow(plan, parent, root, r);
      PlanSort.PathNonempty(plan, p);
    }
  }

  /** The sorted nodes of a tree are an order in which parents come later. */
  lemma SortedTree<S, X>(plan: seq<Node>, t: Tree<S, X>, root: nat, sorted: seq<nat>)
    requires IsTree(plan, t.parent, root) && T.NoDup(sorted)
    requires forall i :: 0 <= i < |sorted| ==> ChildrenIn(plan, sorted[i], sorted[..i])
    requires forall v :: Reachable(plan, root, v) ==> v in sorted
    ensures ChildrenFirst(t, sorted)
  {
    hide Reachable, WellFormed;
    forall i | 0 <= i < |sorted| && t.parent[sorted[i]].Some? ensures t.parent[sorted[i]].value in sorted[i + 1..] {
      var p := t.parent[sorted[i]].value;
      assert Reachable(plan, root, p);
      var j: nat :| j < |sorted| && sorted[j] == p;
      assert ChildrenIn(plan, sorted[j], sorted[..j]) && sorted[i] in sorted[..j];
      var k: nat :| k < j && sorted[..j][k] == sorted[i];
      assert k == i;
      assert sorted[i + 1..][j - i - 1] == p;
    }
  }

  lemma HasParent(plan: seq<Node>, parent: seq<Option<nat>>, root: nat, v: nat)
    requires IsTree(plan, parent, root) && v < |plan|
    ensures v < |parent| && (parent[v].None? <==> v == root)
  {
    hide IsPath, WellFormed;
    assert Reachable(plan, root, v);
    var p :| Connects(plan, p, root, v);
    PlanSort.PathNonempty(plan, p);
    if v != root {
      LastEdge(plan, p);
      TreeEdge(plan, parent, root, p[|p| - 2], v);
    }
  }

  /** The last node, and no other, has no parent. */
  ghost predicate RootEnds<S, X>(t: Tree<S, X>, sorted: seq<nat>) {
    forall i :: 0 <= i < |sorted| && sorted[i] < |t.parent| ==> (t.parent[sorted[i]].None? <==> i == |sorted| - 1)
  }

  lemma OnlyRoot<S, X>(plan: seq<Node>, t: Tree<S, X>, root: nat, sorted: seq<nat>)
    requires IsTree(plan, t.parent, root) && ChildrenFirst(t, sorted) && sorted != [] && sorted[|sorted| - 1] == root
    ensures RootEnds(t, sorted)
  {
    forall i | 0 <= i < |sorted| ensures t.parent[sorted[i]].None? <==> i == |sorted| - 1 {
      HasParent(plan, t.parent, root, sorted[i]);
    }
  }

  // ------------------------------------------------ the executor

  class Hfta<S(!new), X(!new)> {
    const t: Tree<S, X>
    var sorted: seq<nat>
    var ops: seq<S>
    var queues: seq<seq<X>>

    function Abs(out: seq<X>): Net<S, X>
      reads this
    {
      Net(ops, queues, out)
    }

    /** Operators in topological order, the root last, one state and one queue each. */
    ghost predicate Valid()
      reads this
    {
      && Sized(t, Abs([])) && ChildrenFirst(t, sorted) && sorted != []
      && RootEnds(t, sorted)
    }

    constructor (plan: seq<Node>, root: nat, t: Tree<S, X>, ops: seq<S>)
      requires IsTree(plan, t.parent, root) && |ops| == |plan|
      ensures Valid() && this.t == t && this.ops == ops && AllEmpty(Abs([]))
      ensures sorted != [] && sorted[|sorted| - 1] == root
    {
      this.t, this.ops := t, ops;
      queues := seq(|plan|, _ => []);
      TreeIsAcyclic(plan, t.parent, root);
      new;
      sorted := PlanSort.SortNodes(plan, root);
      SortedTree(plan, t, root, sorted);
      OnlyRoot(plan, t, root, sorted);
    }

    /** Feed the waiting tuples of node v to its operator. */
    method Consume(v: nat) returns (out: seq<X>)
      requires Sized(t, Abs([])) && v < |t.parent|
      modifies this`ops
      ensures var f := Feed(t, v, old(ops)[v], queues[v]);
              ops == old(ops)[v := f.0] && out == f.1
    {
      out := [];
      var i := 0;
      assert queues[v][..0] == [];
      while i < |queues[v]|
        invariant i <= |queues[v]| && |ops| == |old(ops)|
        invariant var f := Feed(t, v, old(ops)[v], queues[v][..i]); ops == old(ops)[v := f.0] && out == f.1
      {
        assert queues[v][..i + 1][..i] == queues[v][..i];
        var a := t.accept(v, ops[v], queues[v][i]);
        ops := ops[v := a.0];
        out := out + a.1;
        i := i + 1;
      }
      assert queues[v][..i] == queues[v];
    }

    /** Run node v, sending its output to the parent's queue or to the result. */
    method Turn(v: nat, result: seq<X>) returns (result': seq<X>)
      requires Sized(t, Abs([])) && v < |t.parent|
      modifies this`ops, this`queues
      ensures Sized(t, Abs([])) && Abs(result') == RunNode(t, old(Abs(result)), v)
    {
      hide Feed;
      result' := result;
      var out := Consume(v);
      match t.parent[v] {
        case None => result' := result + out;
        case Some(p) => queues := queues[p := queues[p] + out];
      }
      queues := queues[v := []];
    }

    /**
     * Route one packet up from its source.  The queues are empty again afterwards, and the states and the output are
     * those of running all operators once in sorted order.
     */
    method AcceptPacket(src: nat, x: X) returns (result: seq<X>)
      requires Valid() && AllEmpty(Abs([])) && src < |t.parent|
      modifies this`ops, this`queues
      ensures Valid() && AllEmpty(Abs([]))
      ensures Abs(result) == RunAll(t, Net(old(ops), old(queues)[src := [x]], []), sorted)
      ensures Climbs(t, src, sorted, old(ops), [x], ops, result)
    {
      hide RunNode, RunAll;
      ChainIsRunAll(t, Abs([]), sorted, src, x);
      assert queues[src] == [] && [] + [x] == [x];
      queues := queues[src := queues[src] + [x]];
      result := [];
      ghost var final := RunChain(t, Abs([]), src, sorted);
      ChainClimbs(t, Abs([]), src, sorted);
      var current := src;
      while true
        invariant Sized(t, Abs([])) && current < |t.parent|
        invariant RunChain(t, Abs(result), current, sorted) == final
        decreases After(sorted, current)
      {
        result := Turn(current, result);
        match t.parent[current] {
          case None => return;
          case Some(p) =>
            ParentAfter(t, sorted, current);
            current := p;
        }
      }
    }

    /** Flush every operator in sorted order; all but the last have a parent. */
    method Flush() returns (result: seq<X>)
      requires Valid()
      modifies this`ops, this`queues
      ensures Valid() && AllEmpty(Abs([]))
      ensures Abs(result) == FlushUpTo(t, old(Abs([])), sorted, |sorted|)
    {
      hide FlushNode, ChildrenFirst;
      InOrder(t, sorted);
      result := [];
      for i := 0 to |sorted|
        invariant Sized(t, Abs([]))
        invariant Abs(result) == FlushUpTo(t, old(Abs([])), sorted, i)
      {
        result := FlushTurn(sorted[i], i < |sorted| - 1, result);
      }
      FlushIsComplete(t, old(Abs([])), sorted, 0);
    }

    method FlushTurn(v: nat, inner: bool, result: seq<X>) returns (result': seq<X>)
      requires Sized(t, Abs([])) && v < |t.parent| && (inner <==> t.parent[v].Some?)
      modifies this`ops, this`queues
      ensures Sized(t, Abs([])) && Abs(result') == FlushNode(t, old(Abs(result)), v)
    {
      hide Feed;
      result' := result;
      var out := Consume(v);
      var g := t.flush(v, ops[v]);
      ops := ops[v := g.0];
      if inner {
        var p := t.parent[v].value;
        queues := queues[p := queues[p] + (out + g.1)];
      } else {
        result' := result + (out + g.1);
      }
      queues := queues[v := []];
    }
  }
}
