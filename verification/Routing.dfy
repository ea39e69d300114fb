/** Routing packets through an operator tree: from the source up the chain of parents. */
module Routing {
  import opened Options
  import T = Table

  /**
   * The operators of a tree by node number: the parent of each, and what its operator does with one tuple and with a
   * flush.  S is the state of an operator.
   */
  datatype Tree<!S, !X> = Tree(parent: seq<Option<nat>>, accept: (nat, S, X) -> (S, seq<X>),
      flush: (nat, S) -> (S, seq<X>))

  /** The operator states, their input queues, and what the root has produced. */
  datatype Net<S, X> = Net(ops: seq<S>, queues: seq<seq<X>>, out: seq<X>)

  predicate Sized<S, X>(t: Tree<S, X>, net: Net<S, X>) {
    && |net.ops| == |net.queues| == |t.parent|
    && forall v :: 0 <= v < |t.parent| && t.parent[v].Some? ==> t.parent[v].value < |t.parent|
  }

  /** Feed the tuples of a queue to an operator, collecting its output. */
  function Feed<S, X>(t: Tree<S, X>, v: nat, s: S, xs: seq<X>): (S, seq<X>) {
    if xs == [] then (s, []) else
    var r := Feed(t, v, s, xs[..|xs| - 1]);
    var a := t.accept(v, r.0, xs[|xs| - 1]);
    (a.0, r.1 + a.1)
  }

  // ------------------------------------------------ what consuming a queue means

  ghost function Flat<X>(parts: seq<seq<X>>): seq<X> {
    if parts == [] then [] else Flat(parts[..|parts| - 1]) + parts[|parts| - 1]
  }

  /**
   * One call of accept per tuple, in order: states[i] is the operator's state before the i-th call and parts[i] what
   * that call emits.
   */
  ghost predicate Calls<S, X>(t: Tree<S, X>, v: nat, xs: seq<X>, states: seq<S>, parts: seq<seq<X>>) {
    && |states| == |xs| + 1 && |parts| == |xs|
    && forall i :: 0 <= i < |xs| ==> (states[i + 1], parts[i]) == t.accept(v, states[i], xs[i])
  }

  /** Operator v in state s turns the tuples xs into the output out and is then in state s'. */
  ghost predicate Turns<S(!new), X(!new)>(t: Tree<S, X>, v: nat, s: S, xs: seq<X>, s': S, out: seq<X>) {
    exists states, parts ::
      Calls(t, v, xs, states, parts) && states[0] == s && states[|xs|] == s' && out == Flat(parts)
  }

  /** Feeding a queue to an operator is one call per tuple; everything that the calls emit is collected. */
  lemma {:induction false} FeedIsCalls<S, X>(t: Tree<S, X>, v: nat, s: S, xs: seq<X>)
      returns (states: seq<S>, parts: seq<seq<X>>)
    ensures Calls(t, v, xs, states, parts) && states[0] == s && Feed(t, v, s, xs) == (states[|xs|], Flat(parts))
  {
    if xs == [] {
      states, parts := [s], [];
    } else {
      var n := |xs| - 1;
      var ss, ps := FeedIsCalls(t, v, s, xs[..n]);
      var a := t.accept(v, ss[n], xs[n]);
      states, parts := ss + [a.0], ps + [a.1];
      assert parts[..n] == ps;
      forall i | 0 <= i < |xs| ensures (states[i + 1], parts[i]) == t.accept(v, states[i], xs[i]) {
        if i < n { assert (ss[i + 1], ps[i]) == t.accept(v, ss[i], xs[..n][i]); }
      }
    }
  }

  lemma {:induction false} SameCalls<S, X>(t: Tree<S, X>, v: nat, xs: seq<X>, a: seq<S>, p: seq<seq<X>>, b: seq<S>,
      r: seq<seq<X>>)
    requires Calls(t, v, xs, a, p) && Calls(t, v, xs, b, r) && a[0] == b[0]
    ensures a == b && p == r
  {
    if xs != [] {
      var n := |xs| - 1;
      SameCalls(t, v, xs[..n], a[..n + 1], p[..n], b[..n + 1], r[..n]);
      assert a[n] == a[..n + 1][n] && b[n] == b[..n + 1][n];
      assert (a[n + 1], p[n]) == (b[n + 1], r[n]);
      assert a == a[..n + 1] + [a[n + 1]] && b == b[..n + 1] + [b[n + 1]];
      assert p == p[..n] + [p[n]] && r == r[..n] + [r[n]];
    }
  }

  /** Feed is the only result that the calls have. */
  lemma TurnsIsFeed<S(!new), X(!new)>(t: Tree<S, X>, v: nat, s: S, xs: seq<X>, s': S, out: seq<X>)
    ensures Turns(t, v, s, xs, s', out) <==> Feed(t, v, s, xs) == (s', out)
  {
    hide Feed;
    var states, parts := FeedIsCalls(t, v, s, xs);
    if Turns(t, v, s, xs, s', out) {
      var a, p :| Calls(t, v, xs, a, p) && a[0] == s && a[|xs|] == s' && out == Flat(p);
      SameCalls(t, v, xs, a, p, states, parts);
    }
  }

  /** Append output to the parent's input queue, or to the result for a node without parent. */
  function Deliver<S, X>(t: Tree<S, X>, net: Net<S, X>, v: nat, xs: seq<X>): (r: Net<S, X>)
    requires Sized(t, net) && v < |t.parent|
    ensures Sized(t, r)
  {
    match t.parent[v]
    case None => net.(out := net.out + xs)
    case Some(p) => net.(queues := net.queues[p := net.queues[p] + xs])
  }

  /** Run one operator: consume its queue, deliver what it produces, clear the queue. */
  function RunNode<S, X>(t: Tree<S, X>, net: Net<S, X>, v: nat): (r: Net<S, X>)
    requires Sized(t, net) && v < |t.parent|
    ensures Sized(t, r)
  {
    var f := Feed(t, v, net.ops[v], net.queues[v]);
    var d := Deliver(t, net.(ops := net.ops[v := f.0]), v, f.1);
    d.(queues := d.queues[v := []])
  }

  ghost predicate Nodes<S, X>(t: Tree<S, X>, order: seq<nat>) {
    forall i :: 0 <= i < |order| ==> order[i] < |t.parent|
  }

  /** Run every operator once in the given order. */
  function RunAll<S, X>(t: Tree<S, X>, net: Net<S, X>, order: seq<nat>): (r: Net<S, X>)
    requires Sized(t, net) && Nodes(t, order)
    ensures Sized(t, r)
    decreases |order|
  {
    if order == [] then net else RunAll(t, RunNode(t, net, order[0]), order[1..])
  }

  // ------------------------------------------------ orders with children first

  /** Every node occurs once, and its parent occurs later. */
  ghost predicate ChildrenFirst<S, X>(t: Tree<S, X>, order: seq<nat>) {
    && Nodes(t, order) && T.NoDup(order)
    && (forall v: nat :: v < |t.parent| ==> v in order)
    && (forall i :: 0 <= i < |order| && t.parent[order[i]].Some? ==> t.parent[order[i]].value in order[i + 1..])
  }

  /** Steps left from node v to the end of the order; the chain of parents goes down. */
  ghost function After(order: seq<nat>, v: nat): nat {
    if order == [] then 0 else if order[0] == v then |order| else After(order[1..], v)
  }

  lemma {:induction false} AfterAt(order: seq<nat>, i: nat)
    requires i < |order| && T.NoDup(order)
    ensures After(order, order[i]) == |order| - i
  {
    if i > 0 {
      assert order[0] != order[i];
      AfterAt(order[1..], i - 1);
    }
  }

  lemma ParentAfter<S, X>(t: Tree<S, X>, order: seq<nat>, v: nat)
    requires ChildrenFirst(t, order) && v < |t.parent| && t.parent[v].Some?
    ensures After(order, t.parent[v].value) < After(order, v)
  {
    hide After, T.NoDup;
    var i, j := ParentPosition(t, order, v);
    AfterAt(order, i);
    AfterAt(order, j);
  }

  lemma ParentPosition<S, X>(t: Tree<S, X>, order: seq<nat>, v: nat) returns (i: nat, j: nat)
    requires ChildrenFirst(t, order) && v < |t.parent| && t.parent[v].Some?
    ensures i < j < |order| && order[i] == v && order[j] == t.parent[v].value
  {
    hide T.NoDup;
    assert v in order;
    i :| 0 <= i < |order| && order[i] == v;
    var k: nat :| k < |order[i + 1..]| && order[i + 1..][k] == t.parent[v].value;
    j := i + 1 + k;
    assert order[i + 1..][k] == order[j];
  }

  /** Run the chain of parents from v, as the packet router does. */
  ghost function RunChain<S, X>(t: Tree<S, X>, net: Net<S, X>, v: nat, order: seq<nat>): (r: Net<S, X>)
    requires Sized(t, net) && v < |t.parent| && ChildrenFirst(t, order)
    ensures Sized(t, r)
    decreases After(order, v)
  {
    var n := RunNode(t, net, v);
    match t.parent[v]
    case None => n
    case Some(p) => ParentAfter(t, order, v); RunChain(t, n, p, order)
  }

  // ------------------------------------------------ the chain does what all operators would do

  ghost predicate EmptyBut<S, X>(net: Net<S, X>, v: nat) {
    forall u :: 0 <= u < |net.queues| && u != v ==> net.queues[u] == []
  }

  ghost predicate AllEmpty<S, X>(net: Net<S, X>) {
    forall u :: 0 <= u < |net.queues| ==> net.queues[u] == []
  }

  /** An operator without input changes nothing. */
  lemma RunIdle<S, X>(t: Tree<S, X>, net: Net<S, X>, v: nat)
    requires Sized(t, net) && v < |t.parent| && net.queues[v] == []
    ensures RunNode(t, net, v) == net
  {
    assert net.ops[v := net.ops[v]] == net.ops;
    assert net.out + [] == net.out;
    if t.parent[v].Some? {
      var p := t.parent[v].value;
      assert net.queues[p] + [] == net.queues[p];
      assert net.queues[p := net.queues[p]] == net.queues;
    }
    assert net.queues[v := []] == net.queues;
  }

  lemma {:induction false} RunAllIdle<S, X>(t: Tree<S, X>, net: Net<S, X>, order: seq<nat>)
    requires Sized(t, net) && Nodes(t, order) && AllEmpty(net)
    ensures RunAll(t, net, order) == net
  {
    hide RunNode;
    if order != [] {
      RunIdle(t, net, order[0]);
      RunAllIdle(t, net, order[1..]);
    }
  }

  /** Running a node moves the input of the net to its parent. */
  lemma RunMoves<S, X>(t: Tree<S, X>, net: Net<S, X>, v: nat)
    requires Sized(t, net) && v < |t.parent| && EmptyBut(net, v) && t.parent[v] != Some(v)
    ensures t.parent[v].Some? ==> EmptyBut(RunNode(t, net, v), t.parent[v].value)
    ensures t.parent[v].None? ==> AllEmpty(RunNode(t, net, v))
  {
    hide Feed;
  }

  lemma SuffixStep<S, X>(t: Tree<S, X>, net: Net<S, X>, order: seq<nat>, k: nat)
    requires Sized(t, net) && Nodes(t, order) && k < |order|
    ensures Nodes(t, order[k..]) && Nodes(t, order[k + 1..])
    ensures RunAll(t, net, order[k..]) == RunAll(t, RunNode(t, net, order[k]), order[k + 1..])
  {
    hide RunNode;
    assert order[k..][0] == order[k] && order[k..][1..] == order[k + 1..];
  }

  lemma {:induction false} SuffixIsChain<S, X>(t: Tree<S, X>, net: Net<S, X>, order: seq<nat>, k: nat, v: nat)
    requires Sized(t, net) && ChildrenFirst(t, order) && k <= |order| && v < |t.parent|
    requires EmptyBut(net, v) && v in order[k..]
    ensures Nodes(t, order[k..]) && RunAll(t, net, order[k..]) == RunChain(t, net, v, order)
    ensures AllEmpty(RunChain(t, net, v, order))
    decreases |order| - k
  {
    hide RunNode, RunAll, EmptyBut, AllEmpty, Sized;
    SuffixStep(t, net, order, k);
    var u := order[k];
    if u != v {
      EmptyAt(t, net, v, u);
      RunIdle(t, net, u);
      SuffixIsChain(t, net, order, k + 1, v);
    } else {
      NotOwnParent(t, order, v);
      RunMoves(t, net, v);
      if t.parent[v].Some? {
        ParentLater(t, order, k);
        ParentAfter(t, order, v);
        SuffixIsChain(t, RunNode(t, net, v), order, k + 1, t.parent[v].value);
      } else {
        RunAllIdle(t, RunNode(t, net, v), order[k + 1..]);
      }
    }
  }

  lemma EmptyAt<S, X>(t: Tree<S, X>, net: Net<S, X>, v: nat, u: nat)
    requires Sized(t, net) && EmptyBut(net, v) && u < |t.parent| && u != v
    ensures net.queues[u] == []
  {
  }

  lemma ParentLater<S, X>(t: Tree<S, X>, order: seq<nat>, k: nat)
    requires ChildrenFirst(t, order) && k < |order| && t.parent[order[k]].Some?
    ensures t.parent[order[k]].value in order[k + 1..]
  {
  }

  lemma NotOwnParent<S, X>(t: Tree<S, X>, order: seq<nat>, v: nat)
    requires ChildrenFirst(t, order) && v < |t.parent|
    ensures t.parent[v] != Some(v)
  {
    if t.parent[v] == Some(v) {
      ParentAfter(t, order, v);
    }
  }

  /**
   * From empty queues, pushing one packet to its source and running only the chain of parents gives the same operator
   * states and root output as running all operators once in any order with children first, and leaves all queues empty.
   */
  lemma ChainIsRunAll<S, X>(t: Tree<S, X>, net: Net<S, X>, order: seq<nat>, src: nat, x: X)
    requires Sized(t, net) && ChildrenFirst(t, order) && AllEmpty(net) && src < |t.parent|
    ensures var start := net.(queues := net.queues[src := [x]]);
            && RunChain(t, start, src, order) == RunAll(t, start, order)
            && AllEmpty(RunChain(t, start, src, order))
  {
    var start := net.(queues := net.queues[src := [x]]);
    assert order[0..] == order && src in order;
    SuffixIsChain(t, start, order, 0, src);
  }

  // ------------------------------------------------ what a packet does

  /**
   * The tuples xs reach operator v and go up the chain of parents: each operator turns what it gets into what its
   * parent gets, and the last one's output is the result.  The operators off the chain keep their states.
   */
  ghost predicate Climbs<S(!new), X(!new)>(t: Tree<S, X>, v: nat, order: seq<nat>, ops: seq<S>, xs: seq<X>,
      ops': seq<S>, out: seq<X>)
    requires ChildrenFirst(t, order) && v < |t.parent| == |ops|
    decreases After(order, v)
  {
    exists s', ys ::
      && Turns(t, v, ops[v], xs, s', ys)
      && match t.parent[v]
         case None => ops' == ops[v := s'] && out == ys
         case Some(p) =>
           ParentAfter(t, order, v);
           p < |t.parent| && Climbs(t, p, order, ops[v := s'], ys, ops', out)
  }

  lemma {:induction false} ChainClimbs<S(!new), X(!new)>(t: Tree<S, X>, net: Net<S, X>, v: nat, order: seq<nat>)
    requires Sized(t, net) && ChildrenFirst(t, order) && v < |t.parent| && EmptyBut(net, v) && net.out == []
    ensures var r := RunChain(t, net, v, order); Climbs(t, v, order, net.ops, net.queues[v], r.ops, r.out)
    decreases After(order, v)
  {
    hide ChildrenFirst, Turns, Feed;
    var f := Feed(t, v, net.ops[v], net.queues[v]);
    TurnsIsFeed(t, v, net.ops[v], net.queues[v], f.0, f.1);
    NotOwnParent(t, order, v);
    RunMoves(t, net, v);
    if t.parent[v].Some? {
      var p := t.parent[v].value;
      var n := RunNode(t, net, v);
      ParentAfter(t, order, v);
      assert net.queues[p] == [] && [] + f.1 == f.1 && n.queues[p] == f.1;
      ChainClimbs(t, n, p, order);
    } else {
      assert [] + f.1 == f.1;
    }
  }

  // ------------------------------------------------ flushing the tree

  /** Consume the queue, flush the operator, deliver both outputs, clear the queue. */
  function FlushNode<S, X>(t: Tree<S, X>, net: Net<S, X>, v: nat): (r: Net<S, X>)
    requires Sized(t, net) && v < |t.parent|
    ensures Sized(t, r)
  {
    var f := Feed(t, v, net.ops[v], net.queues[v]);
    var g := t.flush(v, f.0);
    var d := Deliver(t, net.(ops := net.ops[v := g.0]), v, f.1 + g.1);
    d.(queues := d.queues[v := []])
  }

  /** The net after the first k nodes of the order have been flushed. */
  function FlushUpTo<S, X>(t: Tree<S, X>, net: Net<S, X>, order: seq<nat>, k: nat): (r: Net<S, X>)
    requires Sized(t, net) && Nodes(t, order) && k <= |order|
    ensures Sized(t, r)
  {
    if k == 0 then net else FlushNode(t, FlushUpTo(t, net, order, k - 1), order[k - 1])
  }

  /** What node v has been sent once the first k nodes have been flushed, including what was waiting for it. */
  ghost function Sent<S, X>(t: Tree<S, X>, net: Net<S, X>, order: seq<nat>, v: nat, k: nat): seq<X>
    requires Sized(t, net) && Nodes(t, order) && v < |t.parent| && k <= |order|
    decreases k, 0
  {
    if k == 0 then net.queues[v] else
    Sent(t, net, order, v, k - 1) + (if t.parent[order[k - 1]] == Some(v) then Produced(t, net, order, k - 1) else [])
  }

  /** The final state of the i-th node and everything it produces, given all that its children produce. */
  ghost function Flushed<S, X>(t: Tree<S, X>, net: Net<S, X>, order: seq<nat>, i: nat): (S, seq<X>)
    requires Sized(t, net) && Nodes(t, order) && i < |order|
    decreases i, 1
  {
    var v := order[i];
    var f := Feed(t, v, net.ops[v], Sent(t, net, order, v, i));
    var g := t.flush(v, f.0);
    (g.0, f.1 + g.1)
  }

  ghost function Produced<S, X>(t: Tree<S, X>, net: Net<S, X>, order: seq<nat>, i: nat): seq<X>
    requires Sized(t, net) && Nodes(t, order) && i < |order|
    decreases i, 2
  {
    Flushed(t, net, order, i).1
  }

  /** A flushed node has turned what it was sent into output, and its flush added the rest. */
  lemma FlushedIsTurn<S(!new), X(!new)>(t: Tree<S, X>, net: Net<S, X>, order: seq<nat>, i: nat) returns (s': S,
      out: seq<X>)
    requires Sized(t, net) && Nodes(t, order) && i < |order|
    ensures var v := order[i];
            var g := t.flush(v, s');
            && Turns(t, v, net.ops[v], Sent(t, net, order, v, i), s', out)
            && Flushed(t, net, order, i).0 == g.0 && Produced(t, net, order, i) == out + g.1
  {
    hide Feed, Turns;
    var v := order[i];
    var f := Feed(t, v, net.ops[v], Sent(t, net, order, v, i));
    s', out := f.0, f.1;
    TurnsIsFeed(t, v, net.ops[v], Sent(t, net, order, v, i), s', out);
  }

  /** The output of the nodes without parent among the first k. */
  ghost function Result<S, X>(t: Tree<S, X>, net: Net<S, X>, order: seq<nat>, k: nat): seq<X>
    requires Sized(t, net) && Nodes(t, order) && k <= |order|
  {
    if k == 0 then net.out else
    Result(t, net, order, k - 1) + (if t.parent[order[k - 1]].None? then Produced(t, net, order, k - 1) else [])
  }

  /** The net after k flushes, node by node. */
  ghost predicate FlushedSoFar<S, X>(t: Tree<S, X>, net: Net<S, X>, order: seq<nat>, k: nat, r: Net<S, X>)
    requires Sized(t, net) && Nodes(t, order) && k <= |order|
  {
    && Sized(t, r)
    && (forall i :: 0 <= i < k ==> r.queues[order[i]] == [] && r.ops[order[i]] == Flushed(t, net, order, i).0)
    && (forall i :: k <= i < |order| ==>
          r.queues[order[i]] == Sent(t, net, order, order[i], k) && r.ops[order[i]] == net.ops[order[i]])
    && r.out == Result(t, net, order, k)
  }

  lemma InOrder<S, X>(t: Tree<S, X>, sorted: seq<nat>)
    requires ChildrenFirst(t, sorted)
    ensures Nodes(t, sorted)
  {
  }

  lemma FlushedNext<S, X>(t: Tree<S, X>, net: Net<S, X>, order: seq<nat>, k: nat, r: Net<S, X>)
    requires Sized(t, net) && ChildrenFirst(t, order) && k < |order| && FlushedSoFar(t, net, order, k, r)
    ensures FlushedSoFar(t, net, order, k + 1, FlushNode(t, r, order[k]))
  {
    hide Feed, FlushNode, ChildrenFirst, FlushOut;
    InOrder(t, order);
    var v := order[k];
    var r' := FlushNode(t, r, v);
    FlushedOut(t, net, order, k, r);
    NotOwnParent(t, order, v);
    FlushSelf(t, r, v);
    forall i | 0 <= i < |order| && i != k
      ensures r'.queues[order[i]]
           == r.queues[order[i]] + (if t.parent[v] == Some(order[i]) then Produced(t, net, order, k) else [])
      ensures r'.ops[order[i]] == r.ops[order[i]]
    {
      OrderDistinct(t, order, i, k);
      FlushOther(t, r, v, order[i]);
    }
    forall i | 0 <= i < k ensures r'.queues[order[i]] == [] {
      ParentNotBefore(t, order, i, k);
      assert r.queues[order[i]] + [] == r.queues[order[i]];
    }
  }

  /** New state and output of node v when it is flushed. */
  ghost function FlushOut<S, X>(t: Tree<S, X>, net: Net<S, X>, v: nat): (S, seq<X>)
    requires Sized(t, net) && v < |t.parent|
  {
    var f := Feed(t, v, net.ops[v], net.queues[v]);
    var g := t.flush(v, f.0);
    (g.0, f.1 + g.1)
  }

  lemma FlushedOut<S, X>(t: Tree<S, X>, net: Net<S, X>, order: seq<nat>, k: nat, r: Net<S, X>)
    requires Sized(t, net) && Nodes(t, order) && k < |order| && FlushedSoFar(t, net, order, k, r)
    ensures FlushOut(t, r, order[k]) == Flushed(t, net, order, k)
  {
    hide Feed;
  }

  lemma FlushSelf<S, X>(t: Tree<S, X>, net: Net<S, X>, v: nat)
    requires Sized(t, net) && v < |t.parent| && t.parent[v] != Some(v)
    ensures var r := FlushNode(t, net, v);
            && r.queues[v] == [] && r.ops[v] == FlushOut(t, net, v).0
            && r.out == if t.parent[v].None? then net.out + FlushOut(t, net, v).1 else net.out
  {
    hide Feed;
  }

  lemma FlushOther<S, X>(t: Tree<S, X>, net: Net<S, X>, v: nat, u: nat)
    requires Sized(t, net) && v < |t.parent| && u < |t.parent| && u != v
    ensures var r := FlushNode(t, net, v);
            && r.queues[u] == net.queues[u] + (if t.parent[v] == Some(u) then FlushOut(t, net, v).1 else [])
            && r.ops[u] == net.ops[u]
  {
    hide Feed;
    assert net.queues[u] + [] == net.queues[u];
  }

  lemma OrderDistinct<S, X>(t: Tree<S, X>, order: seq<nat>, i: nat, k: nat)
    requires ChildrenFirst(t, order) && i < |order| && k < |order| && i != k
    ensures order[i] != order[k]
  {
  }

  lemma ParentNotBefore<S, X>(t: Tree<S, X>, order: seq<nat>, i: nat, k: nat)
    requires ChildrenFirst(t, order) && i <= k < |order|
    ensures t.parent[order[k]] != Some(order[i])
  {
    if t.parent[order[k]] == Some(order[i]) {
      AfterAt(order, i);
      AfterAt(order, k);
      ParentAfter(t, order, order[k]);
    }
  }

  lemma {:induction false} FlushedAfter<S, X>(t: Tree<S, X>, net: Net<S, X>, order: seq<nat>, k: nat)
    requires Sized(t, net) && ChildrenFirst(t, order) && k <= |order|
    ensures FlushedSoFar(t, net, order, k, FlushUpTo(t, net, order, k))
  {
    hide FlushNode, FlushedSoFar, ChildrenFirst;
    InOrder(t, order);
    if k == 0 {
      FlushedStart(t, net, order);
    } else {
      FlushedAfter(t, net, order, k - 1);
      FlushedNext(t, net, order, k - 1, FlushUpTo(t, net, order, k - 1));
    }
  }

  lemma FlushedStart<S, X>(t: Tree<S, X>, net: Net<S, X>, order: seq<nat>)
    requires Sized(t, net) && Nodes(t, order)
    ensures FlushedSoFar(t, net, order, 0, net)
  {
    hide Feed;
  }

  lemma {:induction false} SentOnlyByChildren<S, X>(t: Tree<S, X>, net: Net<S, X>, order: seq<nat>, i: nat, k: nat)
    requires Sized(t, net) && ChildrenFirst(t, order) && i <= k <= |order| && i < |order|
    ensures Sent(t, net, order, order[i], k) == Sent(t, net, order, order[i], i)
  {
    hide ChildrenFirst, Produced;
    if k > i {
      SentOnlyByChildren(t, net, order, i, k - 1);
      ParentNotBefore(t, order, i, k - 1);
    }
  }

  /**
   * A flush in an order with children first leaves all queues empty; every operator is flushed once, after it has
   * consumed everything that was waiting for it and everything its children produced.
   */
  lemma FlushIsComplete<S, X>(t: Tree<S, X>, net: Net<S, X>, order: seq<nat>, i: nat)
    requires Sized(t, net) && ChildrenFirst(t, order) && i < |order|
    ensures var r := FlushUpTo(t, net, order, |order|);
            var v := order[i];
            && AllEmpty(r) && r.out == Result(t, net, order, |order|)
            && r.ops[v] == t.flush(v, Feed(t, v, net.ops[v], Sent(t, net, order, v, |order|)).0).0
  {
    hide FlushUpTo;
    FlushedAfter(t, net, order, |order|);
    SentOnlyByChildren(t, net, order, i, |order|);
    var r := FlushUpTo(t, net, order, |order|);
    forall u | 0 <= u < |r.queues| ensures r.queues[u] == [] {
      assert u in order;
      var j: nat :| j < |order| && order[j] == u;
    }
  }
}
