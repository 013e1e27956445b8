/**
  The boot dependency graph of `kernel/src/boot/initgraph.rs`: edges are registered, a goal and everything
  it needs is marked as wanted, and nodes are reached as their dependency counters drop to zero.
  */
module InitGraph {
  import opened Common

  datatype Edge = Edge(source: nat, target: nat, propagates: bool)

  /** A gate disables its node when its function returns false. */
  datatype Action = Empty | Callback | Gate(pass: bool)

  predicate EdgesIn(edges: seq<Edge>, n: nat) {
    forall i :: 0 <= i < |edges| ==> edges[i].source < n && edges[i].target < n
  }

  // ----- dependency counters

  /** The number of edges to `t` whose source is in `alive`. */
  function Open(edges: seq<Edge>, t: nat, alive: set<nat>): nat {
    if edges == [] then 0
    else (if edges[0].target == t && edges[0].source in alive then 1 else 0) + Open(edges[1..], t, alive)
  }

  lemma {:induction false} OpenConcat(a: seq<Edge>, b: seq<Edge>, t: nat, alive: set<nat>)
    ensures Open(a + b, t, alive) == Open(a, t, alive) + Open(b, t, alive)
  {
    if a == [] {
      assert a + b == b;
    } else {
      OpenConcat(a[1..], b, t, alive);
      assert (a + b)[1..] == a[1..] + b;
    }
  }

  lemma OpenSplit(edges: seq<Edge>, k: nat, t: nat, alive: set<nat>)
    requires k < |edges|
    ensures Open(edges[..k + 1], t, alive) == Open(edges[..k], t, alive) + Open([edges[k]], t, alive)
    ensures Open(edges[k..], t, alive) == Open([edges[k]], t, alive) + Open(edges[k + 1..], t, alive)
  {
    assert edges[..k + 1] == edges[..k] + [edges[k]];
    OpenConcat(edges[..k], [edges[k]], t, alive);
    assert edges[k..] == [edges[k]] + edges[k + 1..];
    OpenConcat([edges[k]], edges[k + 1..], t, alive);
  }

  lemma OpenOne(e: Edge, t: nat, alive: set<nat>)
    ensures Open([e], t, alive) == if e.target == t && e.source in alive then 1 else 0
  {
  }

  /** No edge counts exactly when every source is gone. */
  lemma {:induction false} OpenZero(edges: seq<Edge>, t: nat, alive: set<nat>)
    ensures Open(edges, t, alive) == 0 <==> forall i :: 0 <= i < |edges| && edges[i].target == t ==>
              edges[i].source !in alive
  {
    if edges != [] {
      OpenZero(edges[1..], t, alive);
      assert edges == [edges[0]] + edges[1..];
      assert forall i :: 0 <= i < |edges[1..]| ==> edges[1..][i] == edges[i + 1];
      assert forall i :: 0 < i < |edges| ==> edges[i] == edges[1..][i - 1];
    }
  }

  // ----- the state of the nodes

  datatype Nodes = Nodes(deps: seq<nat>, wanted: seq<bool>, done: seq<bool>, disabled: seq<bool>)

  predicate Sized(s: Nodes, n: nat) {
    |s.deps| == n && |s.wanted| == n && |s.done| == n && |s.disabled| == n
  }

  function Alive(done: seq<bool>): set<nat> {
    set t: nat | t < |done| && !done[t]
  }

  ghost predicate DepsOk(s: Nodes, edges: seq<Edge>) {
    |s.deps| == |s.done| && forall t :: 0 <= t < |s.deps| ==> s.deps[t] == Open(edges, t, Alive(s.done))
  }

  /** Half way through the edges out of `node`: those before `k` no longer count. */
  ghost predicate DepsMid(s: Nodes, edges: seq<Edge>, node: nat, k: nat)
    requires k <= |edges|
  {
    && |s.deps| == |s.done|
    && forall t :: 0 <= t < |s.deps| ==>
         s.deps[t] == Open(edges[..k], t, Alive(s.done)) + Open(edges[k..], t, Alive(s.done) + {node})
  }

  /** Some source that is done and disabled reaches `t` over a propagating edge; of the edges out of `node`
      only those before `k` count. */
  ghost predicate Inherits(s: Nodes, edges: seq<Edge>, t: nat, node: nat, k: nat) {
    exists i :: 0 <= i < |edges| && Passes(s, edges[i], t) && (edges[i].source != node || i < k)
  }

  predicate Passes(s: Nodes, e: Edge, t: nat) {
    && e.target == t && e.propagates && e.source < |s.done| && e.source < |s.disabled|
    && s.done[e.source] && s.disabled[e.source]
  }

  /** Who is disabled: whoever inherits it, and a node that was reached and whose gate is shut. */
  ghost predicate DisabledOk(s: Nodes, edges: seq<Edge>, actions: seq<Action>, node: nat, k: nat) {
    && |s.disabled| == |s.done| == |actions|
    && forall t :: 0 <= t < |s.done| ==>
         (s.disabled[t] <==> Inherits(s, edges, t, node, k) || (s.done[t] && actions[t] == Gate(false)))
  }

  /** Sources are done before their targets. */
  predicate SourcesDone(done: seq<bool>, edges: seq<Edge>) {
    forall i :: 0 <= i < |edges| ==> edges[i].source < |done| && edges[i].target < |done|
                                     && (done[edges[i].target] ==> done[edges[i].source])
  }

  predicate SourcesWanted(wanted: seq<bool>, edges: seq<Edge>) {
    forall i :: 0 <= i < |edges| ==> edges[i].source < |wanted| && edges[i].target < |wanted|
                                     && (wanted[edges[i].target] ==> wanted[edges[i].source])
  }

  /** The nodes that can be reached next. */
  predicate IsReady(s: Nodes, t: nat) {
    t < |s.wanted| && t < |s.done| && t < |s.deps| && s.wanted[t] && !s.done[t] && s.deps[t] == 0
  }

  /** The worklist holds exactly the nodes that are ready, each once. */
  ghost predicate PendingOk(s: Nodes, pending: seq<nat>) {
    && (forall i :: 0 <= i < |pending| ==> IsReady(s, pending[i]))
    && (forall i, j :: 0 <= i < j < |pending| ==> pending[i] != pending[j])
    && (forall t :: 0 <= t < |s.deps| && IsReady(s, t) ==> t in pending)
  }

  /** The order in which nodes were reached: each at most once, exactly the done ones, sources first. */
  ghost predicate OrderOk(order: seq<nat>, done: seq<bool>, edges: seq<Edge>) {
    && (forall j :: 0 <= j < |order| ==> order[j] < |done| && done[order[j]])
    && (forall j, k :: 0 <= j < k < |order| ==> order[j] != order[k])
    && (forall t :: 0 <= t < |done| && done[t] ==> t in order)
    && (forall i, j :: 0 <= i < |edges| && 0 <= j < |order| && edges[i].target == order[j] ==>
        edges[i].source in order[..j])
  }

  // ----- reaching a node

  function Reach(s: Nodes, node: nat, shut: bool): Nodes
    requires node < |s.done| && node < |s.disabled|
  {
    s.(done := s.done[node := true], disabled := s.disabled[node := s.disabled[node] || shut])
  }

  lemma ReachDeps(s: Nodes, edges: seq<Edge>, node: nat, shut: bool)
    requires DepsOk(s, edges) && node < |s.done| && node < |s.disabled| && !s.done[node]
    ensures DepsMid(Reach(s, node, shut), edges, node, 0)
  {
    var m := Reach(s, node, shut);
    assert Alive(m.done) + {node} == Alive(s.done);
    assert edges[..0] == [] && edges[0..] == edges;
  }

  /** A node whose counter is zero has all its sources done. */
  lemma ZeroMeansDone(s: Nodes, edges: seq<Edge>, node: nat)
    requires DepsOk(s, edges) && EdgesIn(edges, |s.done|) && node < |s.done|
    ensures s.deps[node] == 0 <==> forall i :: 0 <= i < |edges| && edges[i].target == node ==> s.done[edges[i].source]
  {
    OpenZero(edges, node, Alive(s.done));
  }

  lemma ReachDisabled(s: Nodes, edges: seq<Edge>, actions: seq<Action>, node: nat, a: nat, k: nat)
    requires DisabledOk(s, edges, actions, a, |edges|) && SourcesDone(s.done, edges)
    requires node < |s.done| && !s.done[node] && k == 0
    requires forall i :: 0 <= i < |edges| && edges[i].target == node ==> s.done[edges[i].source]
    ensures var m := Reach(s, node, !s.disabled[node] && actions[node] == Gate(false));
            && DisabledOk(m, edges, actions, node, 0)
            && forall t :: 0 <= t < |s.done| ==> (Inherits(m, edges, t, node, 0) <==> Inherits(s, edges, t, a, |edges|))
  {
    var shut := !s.disabled[node] && actions[node] == Gate(false);
    var m := Reach(s, node, shut);
    forall t | 0 <= t < |s.done|
      ensures Inherits(m, edges, t, node, 0) <==> Inherits(s, edges, t, a, |edges|)
    {
      if Inherits(s, edges, t, a, |edges|) {
        var i :| 0 <= i < |edges| && Passes(s, edges[i], t);
        assert Passes(m, edges[i], t) && edges[i].source != node;
      }
      if Inherits(m, edges, t, node, 0) {
        var i :| 0 <= i < |edges| && Passes(m, edges[i], t) && edges[i].source != node;
        assert Passes(s, edges[i], t);
      }
    }
  }

  lemma ReachOrder(order: seq<nat>, done: seq<bool>, edges: seq<Edge>, node: nat)
    requires OrderOk(order, done, edges) && node < |done| && !done[node] && SourcesDone(done, edges)
    requires forall i :: 0 <= i < |edges| && edges[i].target == node ==> done[edges[i].source]
    ensures OrderOk(order + [node], done[node := true], edges)
    ensures SourcesDone(done[node := true], edges)
  {
    var o := order + [node];
    forall i, j | 0 <= i < |edges| && 0 <= j < |o| && edges[i].target == o[j]
      ensures edges[i].source in o[..j]
    {
      if j < |order| {
        assert o[..j] == order[..j];
      } else {
        assert o[..j] == order;
      }
    }
  }

  lemma ReachPending(s: Nodes, node: nat, shut: bool, pending: seq<nat>)
    requires PendingOk(s, [node] + pending) && node < |s.done| && node < |s.disabled|
    ensures IsReady(s, node) && PendingOk(Reach(s, node, shut), pending)
  {
    var p := [node] + pending;
    assert p[0] == node && forall i :: 0 <= i < |pending| ==> pending[i] == p[i + 1];
    forall t | 0 <= t < |s.deps| && IsReady(Reach(s, node, shut), t)
      ensures t in pending
    {
      assert t in p;
    }
  }

  // ----- following the edges out of a node

  function Follow(s: Nodes, e: Edge, node: nat): Nodes
    requires e.target < |s.deps| && e.target < |s.disabled| && node < |s.disabled|
              && (e.source == node ==> s.deps[e.target] > 0)
  {
    if e.source != node then s
    else s.(deps := s.deps[e.target := s.deps[e.target] - 1],
            disabled := if s.disabled[node] && e.propagates then s.disabled[e.target := true] else s.disabled)
  }

  /** The assertion that the successor's counter is not zero. */
  lemma Counted(s: Nodes, edges: seq<Edge>, node: nat, k: nat)
    requires k < |edges| && DepsMid(s, edges, node, k) && edges[k].source == node && edges[k].target < |s.deps|
    ensures s.deps[edges[k].target] > 0
  {
    OpenSplit(edges, k, edges[k].target, Alive(s.done) + {node});
    OpenOne(edges[k], edges[k].target, Alive(s.done) + {node});
  }

  lemma FollowDeps(s: Nodes, edges: seq<Edge>, node: nat, k: nat)
    requires k < |edges| && DepsMid(s, edges, node, k) && EdgesIn(edges, |s.done|) && |s.disabled| == |s.done|
    requires node < |s.done| && s.done[node] && (edges[k].source == node ==> s.deps[edges[k].target] > 0)
    ensures DepsMid(Follow(s, edges[k], node), edges, node, k + 1)
  {
    var m := Follow(s, edges[k], node);
    forall t | 0 <= t < |s.deps|
      ensures m.deps[t] == Open(edges[..k + 1], t, Alive(m.done)) + Open(edges[k + 1..], t, Alive(m.done) + {node})
    {
      OpenSplit(edges, k, t, Alive(s.done));
      OpenSplit(edges, k, t, Alive(s.done) + {node});
      OpenOne(edges[k], t, Alive(s.done));
      OpenOne(edges[k], t, Alive(s.done) + {node});
    }
  }

  lemma FollowDisabled(s: Nodes, edges: seq<Edge>, actions: seq<Action>, node: nat, k: nat)
    requires k < |edges| && DisabledOk(s, edges, actions, node, k) && EdgesIn(edges, |s.done|) && |s.deps| == |s.done|
    requires node < |s.done| && s.done[node]
              && (edges[k].source == node ==> s.deps[edges[k].target] > 0 && !s.done[edges[k].target])
    ensures var m := Follow(s, edges[k], node);
            && DisabledOk(m, edges, actions, node, k + 1)
            && forall t :: 0 <= t < |s.done| && s.done[t] ==>
                (Inherits(m, edges, t, node, k + 1) <==> Inherits(s, edges, t, node, k))
  {
    var m := Follow(s, edges[k], node);
    forall t | 0 <= t < |s.done|
      ensures Inherits(m, edges, t, node, k + 1) <==>
                Inherits(s, edges, t, node, k) || (edges[k].source == node && Passes(s, edges[k], t))
    {
      if Inherits(s, edges, t, node, k) {
        var i :| 0 <= i < |edges| && Passes(s, edges[i], t) && (edges[i].source != node || i < k);
        assert Passes(m, edges[i], t);
      }
      if edges[k].source == node && Passes(s, edges[k], t) {
        assert Passes(m, edges[k], t);
      }
      if Inherits(m, edges, t, node, k + 1) {
        var i :| 0 <= i < |edges| && Passes(m, edges[i], t) && (edges[i].source != node || i < k + 1);
        assert Passes(s, edges[i], t);
      }
    }
  }

  lemma FollowPending(s: Nodes, e: Edge, node: nat, pending: seq<nat>)
    requires PendingOk(s, pending) && e.target < |s.deps| == |s.done| == |s.wanted| == |s.disabled|
              && node < |s.disabled|
    requires e.source == node ==> s.deps[e.target] > 0
    ensures var m := Follow(s, e, node);
            PendingOk(m, if e.source == node && IsReady(m, e.target) then pending + [e.target] else pending)
  {
    var m := Follow(s, e, node);
    var p := if e.source == node && IsReady(m, e.target) then pending + [e.target] else pending;
    if e.source == node {
      forall i | 0 <= i < |pending|
        ensures pending[i] != e.target
      {
        assert IsReady(s, pending[i]);
      }
      forall t | 0 <= t < |s.deps| && IsReady(m, t)
        ensures t in p
      {
        assert t != e.target ==> IsReady(s, t);
      }
    }
  }

  lemma Followed(s: Nodes, edges: seq<Edge>, node: nat)
    requires DepsMid(s, edges, node, |edges|)
    ensures DepsOk(s, edges)
  {
    assert edges[..|edges|] == edges && edges[|edges|..] == [];
  }

  // ----- when everything is reached

  /** A rank that rises along every edge to a wanted node: the wanted part of the graph has no cycle. */
  ghost predicate Ranks(rank: seq<nat>, edges: seq<Edge>, wanted: seq<bool>) {
    && |rank| == |wanted|
    && forall i ::
        0 <= i < |edges| && edges[i].source < |rank| && edges[i].target < |rank| && wanted[edges[i].target]
        ==> rank[edges[i].source] < rank[edges[i].target]
  }

  ghost predicate Acyclic(edges: seq<Edge>, wanted: seq<bool>) {
    exists rank :: Ranks(rank, edges, wanted)
  }

  ghost predicate AllDone(s: Nodes) {
    forall t :: 0 <= t < |s.wanted| && t < |s.done| && s.wanted[t] ==> s.done[t]
  }

  /** With nothing left to do, every wanted node of an acyclic graph is done, by induction on its rank. */
  lemma {:induction false} RankReached(s: Nodes, edges: seq<Edge>, rank: seq<nat>, t: nat)
    requires Sized(s, |s.done|) && DepsOk(s, edges) && EdgesIn(edges, |s.done|) && SourcesWanted(s.wanted, edges)
              && PendingOk(s, [])
    requires Ranks(rank, edges, s.wanted) && t < |s.done| && s.wanted[t]
    ensures s.done[t]
    decreases rank[t]
  {
    forall i | 0 <= i < |edges| && edges[i].target == t
      ensures s.done[edges[i].source]
    {
      RankReached(s, edges, rank, edges[i].source);
    }
    ZeroMeansDone(s, edges, t);
    if !s.done[t] {
      NothingReady(s, t);
    }
  }

  lemma NothingReady(s: Nodes, t: nat)
    requires PendingOk(s, []) && t < |s.deps|
    ensures !IsReady(s, t)
  {
  }

  function IndexOf(order: seq<nat>, t: nat): (i: nat)
    ensures t in order ==> i < |order| && order[i] == t
  {
    if order == [] then 0 else if order[0] == t then 0 else 1 + IndexOf(order[1..], t)
  }

  lemma IndexUnique(order: seq<nat>, i: nat)
    requires i < |order| && forall j, k :: 0 <= j < k < |order| ==> order[j] != order[k]
    ensures IndexOf(order, order[i]) == i
  {
    var j := IndexOf(order, order[i]);
    assert order[j] == order[i];
  }

  /** If every wanted node was reached, the order in which they were is a rank. */
  lemma OrderRanks(s: Nodes, edges: seq<Edge>, order: seq<nat>)
    requires |s.wanted| == |s.done| && OrderOk(order, s.done, edges) && AllDone(s)
    ensures Acyclic(edges, s.wanted)
  {
    var rank := seq(|s.wanted|, t requires 0 <= t < |s.wanted| => IndexOf(order, t));
    forall i | 0 <= i < |edges| && edges[i].source < |rank| && edges[i].target < |rank| && s.wanted[edges[i].target]
      ensures rank[edges[i].source] < rank[edges[i].target]
    {
      var j := IndexOf(order, edges[i].target);
      assert edges[i].target in order && order[j] == edges[i].target;
      var k :| 0 <= k < |order[..j]| && order[..j][k] == edges[i].source;
      IndexUnique(order, k);
    }
    assert Ranks(rank, edges, s.wanted);
  }

  /** A closed walk along edges. */
  predicate IsCycle(edges: seq<Edge>, walk: seq<nat>) {
    && |walk| > 1 && walk[0] == walk[|walk| - 1]
    && forall k :: 0 <= k < |walk| - 1 ==> Arrow(edges, walk[k], walk[k + 1])
  }

  predicate Arrow(edges: seq<Edge>, a: nat, b: nat) {
    exists i :: 0 <= i < |edges| && edges[i].source == a && edges[i].target == b
  }

  /** No node of a cycle is ever done. */
  lemma CycleBlocked(edges: seq<Edge>, done: seq<bool>, order: seq<nat>, walk: seq<nat>, k: nat)
    requires OrderOk(order, done, edges) && SourcesDone(done, edges) && IsCycle(edges, walk) && k < |walk|
    ensures walk[k] < |done| && !done[walk[k]]
  {
    var n := |walk| - 1;
    OnWalk(edges, done, walk, k);
    if done[walk[k]] {
      Backwards(edges, done, order, walk, k, 0);
      Backwards(edges, done, order, walk, n, 0);
    }
  }

  lemma OnWalk(edges: seq<Edge>, done: seq<bool>, walk: seq<nat>, k: nat)
    requires SourcesDone(done, edges) && IsCycle(edges, walk) && k < |walk|
    ensures walk[k] < |done|
  {
    if k < |walk| - 1 {
      assert Arrow(edges, walk[k], walk[k + 1]);
    } else {
      assert Arrow(edges, walk[0], walk[1]);
    }
  }

  /** Walking back from a done node meets done nodes that were reached earlier. */
  lemma {:induction false} Backwards(edges: seq<Edge>, done: seq<bool>, order: seq<nat>, walk: seq<nat>, k: nat, j: nat)
    requires OrderOk(order, done, edges) && IsCycle(edges, walk) && j <= k < |walk| && walk[k] < |done| && done[walk[k]]
    ensures walk[j] < |done| && done[walk[j]] && walk[j] in order && walk[k] in order
    ensures j < k ==> IndexOf(order, walk[j]) < IndexOf(order, walk[k])
    decreases k - j
  {
    if j < k {
      assert Arrow(edges, walk[k - 1], walk[k - 1 + 1]);
      var i :| 0 <= i < |edges| && edges[i].source == walk[k - 1] && edges[i].target == walk[k];
      var p := IndexOf(order, walk[k]);
      assert edges[i].target == order[p];
      var q :| 0 <= q < |order[..p]| && order[..p][q] == edges[i].source;
      IndexUnique(order, q);
      Backwards(edges, done, order, walk, k - 1, j);
    }
  }

  /** A chain of edges from `t` to the goal. */
  ghost predicate Needed(edges: seq<Edge>, t: nat, goal: nat) {
    exists path :: IsPath(edges, path, t, goal)
  }

  predicate IsPath(edges: seq<Edge>, path: seq<nat>, from: nat, to: nat) {
    && path != [] && path[0] == from && path[|path| - 1] == to
    && forall k :: 0 <= k < |path| - 1 ==> Arrow(edges, path[k], path[k + 1])
  }

  lemma NeededFirst(edges: seq<Edge>, goal: nat)
    ensures Needed(edges, goal, goal)
  {
    assert IsPath(edges, [goal], goal, goal);
  }

  lemma NeededBack(edges: seq<Edge>, i: nat, goal: nat)
    requires i < |edges| && Needed(edges, edges[i].target, goal)
    ensures Needed(edges, edges[i].source, goal)
  {
    var path :| IsPath(edges, path, edges[i].target, goal);
    var longer := [edges[i].source] + path;
    forall k | 0 <= k < |longer| - 1
      ensures Arrow(edges, longer[k], longer[k + 1])
    {
      if k > 0 {
        assert Arrow(edges, path[k - 1], path[k - 1 + 1]);
      }
    }
    assert IsPath(edges, longer, edges[i].source, goal);
  }

  class Graph {
    const n: nat
    const actions: seq<Action>
    var edges: seq<Edge>
    var deps: seq<nat>
    var wanted: seq<bool>
    var done: seq<bool>
    var disabled: seq<bool>
    /** The nodes in the order they were reached, and those whose action was not skipped. */
    ghost var order: seq<nat>
    ghost var ran: set<nat>

    ghost function S(): Nodes
      reads this`deps, this`wanted, this`done, this`disabled
    {
      Nodes(deps, wanted, done, disabled)
    }

    /** Between executions. */
    ghost predicate Valid()
      reads this
    {
      && |actions| == n && Sized(S(), n) && EdgesIn(edges, n)
      && DepsOk(S(), edges) && SourcesDone(done, edges) && SourcesWanted(wanted, edges)
      && DisabledOk(S(), edges, actions, 0, |edges|) && OrderOk(order, done, edges)
      && RanOk(S(), edges, ran, 0, |edges|)
    }

    constructor (actions: seq<Action>)
      ensures Valid() && n == |actions| && this.actions == actions && edges == [] && order == []
      ensures forall t :: 0 <= t < n ==> !wanted[t] && !done[t]
    {
      n, this.actions := |actions|, actions;
      edges := [];
      deps, wanted := seq(|actions|, _ => 0), seq(|actions|, _ => false);
      done, disabled := seq(|actions|, _ => false), seq(|actions|, _ => false);
      order, ran := [], {};
    }

    /** `Edge::register`, before anything is executed. */
    method Register(e: Edge)
      requires Valid() && e.source < n && e.target < n && order == [] && forall t :: 0 <= t < n ==> !wanted[t]
      modifies this`edges, this`deps
      ensures Valid() && edges == old(edges) + [e]
    {
      forall t | 0 <= t < n
        ensures Open(edges + [e], t, Alive(done)) == Open(edges, t, Alive(done)) + if e.target == t then 1 else 0
      {
        OpenConcat(edges, [e], t, Alive(done));
        OpenOne(e, t, Alive(done));
      }
      NothingDone(order, done, edges);
      edges := edges + [e];
      deps := deps[e.target := deps[e.target] + 1];
      assert DisabledOk(S(), edges, actions, 0, |edges|);
    }

    /** The marking loop of `execute_graph`: the goal and what it needs are wanted, and nothing else becomes
        wanted. */
    method Mark(goal: nat)
      requires EdgesIn(edges, n) && |wanted| == n && SourcesWanted(wanted, edges) && goal < n
      modifies this`wanted
      ensures |wanted| == n && SourcesWanted(wanted, edges) && wanted[goal]
      ensures forall t :: 0 <= t < n ==> (wanted[t] <==> old(wanted)[t] || Needed(edges, t, goal))
    {
      var queue: seq<nat> := [];
      if !wanted[goal] {
        queue := [goal];
        wanted := wanted[goal := true];
        NeededFirst(edges, goal);
      }
      while queue != []
        invariant |wanted| == n && wanted[goal] && forall i :: 0 <= i < |queue| ==>
                  queue[i] < n && wanted[queue[i]] && Needed(edges, queue[i], goal)
        invariant forall t :: 0 <= t < n && old(wanted)[t] ==> wanted[t]
        invariant forall t :: 0 <= t < n && wanted[t] ==> old(wanted)[t] || Needed(edges, t, goal)
        invariant forall i :: 0 <= i < |edges| && wanted[edges[i].target] && edges[i].target !in queue ==>
                  wanted[edges[i].source]
        decreases Alive(wanted), |queue|
      {
        var node := queue[0];
        queue := MarkSources(node, queue[1..], goal);
      }
      forall t | 0 <= t < n && Needed(edges, t, goal)
        ensures wanted[t]
      {
        var path :| IsPath(edges, path, t, goal);
        AllWanted(path, 0);
      }
    }

    lemma {:induction false} AllWanted(path: seq<nat>, k: nat)
      requires EdgesIn(edges, n) && |wanted| == n && SourcesWanted(wanted, edges) && k < |path|
      requires path[|path| - 1] < n && wanted[path[|path| - 1]] && forall j :: 0 <= j < |path| - 1 ==>
                Arrow(edges, path[j], path[j + 1])
      ensures path[k] < n && wanted[path[k]]
      decreases |path| - k
    {
      if k < |path| - 1 {
        AllWanted(path, k + 1);
        assert Arrow(edges, path[k], path[k + 1]);
      }
    }

    /** The sources of one node become wanted; new ones join the queue. */
    method MarkSources(node: nat, rest: seq<nat>, ghost goal: nat) returns (queue: seq<nat>)
      requires EdgesIn(edges, n) && |wanted| == n && node < n && wanted[node] && Needed(edges, node, goal)
      requires forall i :: 0 <= i < |rest| ==> rest[i] < n && wanted[rest[i]] && Needed(edges, rest[i], goal)
      requires forall i :: 0 <= i < |edges| && wanted[edges[i].target] && edges[i].target !in [node] + rest ==>
                wanted[edges[i].source]
      modifies this`wanted
      ensures |wanted| == n && rest <= queue
      ensures forall i :: 0 <= i < |queue| ==> queue[i] < n && wanted[queue[i]] && Needed(edges, queue[i], goal)
      ensures forall t :: 0 <= t < n && old(wanted)[t] ==> wanted[t]
      ensures forall t :: 0 <= t < n && wanted[t] && !old(wanted)[t] ==> Needed(edges, t, goal)
      ensures forall i :: 0 <= i < |edges| && wanted[edges[i].target] && edges[i].target !in queue ==>
                wanted[edges[i].source]
      ensures Alive(wanted) < Alive(old(wanted)) || (Alive(wanted) == Alive(old(wanted)) && queue == rest)
    {
      queue := rest;
      for k := 0 to |edges|
        invariant |wanted| == n && rest <= queue
        invariant forall i :: 0 <= i < |queue| ==> queue[i] < n && wanted[queue[i]] && Needed(edges, queue[i], goal)
        invariant forall t :: 0 <= t < n && old(wanted)[t] ==> wanted[t]
        invariant forall t :: 0 <= t < n && wanted[t] && !old(wanted)[t] ==> t in queue && Needed(edges, t, goal)
        invariant forall i :: 0 <= i < k && edges[i].target == node ==> wanted[edges[i].source]
        invariant queue == rest ==> wanted == old(wanted)
        invariant queue != rest ==> exists t :: 0 <= t < n && wanted[t] && !old(wanted)[t]
      {
        if edges[k].target == node && !wanted[edges[k].source] {
          NeededBack(edges, k, goal);
          queue := queue + [edges[k].source];
          wanted := wanted[edges[k].source := true];
        }
      }
      Shrinks(old(wanted), wanted);
    }

    /** `on_reached` on the first node of the worklist: its three assertions hold, and its action runs unless
        the node is disabled. */
    method OnReached(node: nat, ghost rest: seq<nat>)
      requires Valid() && PendingOk(S(), [node] + rest)
      modifies this`done, this`disabled, this`order, this`ran
      ensures Sized(S(), n) && node < n && old(wanted[node] && !done[node] && deps[node] == 0)
      ensures done == old(done)[node := true] && order == old(order) + [node]
      ensures ran == if old(disabled)[node] then old(ran) else old(ran) + {node}
      ensures DepsMid(S(), edges, node, 0) && DisabledOk(S(), edges, actions, node, 0)
                && RanOk(S(), edges, ran, node, 0)
      ensures SourcesDone(done, edges) && OrderOk(order, done, edges) && PendingOk(S(), rest)
      ensures forall i :: 0 <= i < |edges| && edges[i].source == node ==> !done[edges[i].target]
    {
      FirstReady(S(), node, rest);
      ZeroMeansDone(S(), edges, node);
      NoDoneTarget(S(), edges, node);
      ghost var shut := !disabled[node] && actions[node] == Gate(false);
      ReachDeps(S(), edges, node, shut);
      ReachDisabled(S(), edges, actions, node, 0, 0);
      ReachOrder(order, done, edges, node);
      ReachPending(S(), node, shut, rest);
      ReachRan(S(), edges, actions, ran, node);
      hide DepsOk, DepsMid, DisabledOk, OrderOk, PendingOk, RanOk, SourcesDone, SourcesWanted;
      if !disabled[node] {
        ran := ran + {node};
        match actions[node]
        case Empty =>
        case Callback =>
        case Gate(pass) =>
          if !pass {
            disabled := disabled[node := true];
          }
      }
      done := done[node := true];
      order := order + [node];
      assert S() == Reach(old(S()), node, shut);
    }

    /** The loop over the edges out of a node; the successor's counter is never found at zero. */
    method FollowEdges(node: nat, rest: seq<nat>) returns (pending: seq<nat>)
      requires Sized(S(), n) && |actions| == n && EdgesIn(edges, n) && node < n && done[node]
      requires DepsMid(S(), edges, node, 0) && DisabledOk(S(), edges, actions, node, 0)
                && RanOk(S(), edges, ran, node, 0)
      requires PendingOk(S(), rest) && forall i :: 0 <= i < |edges| && edges[i].source == node ==>
                !done[edges[i].target]
      modifies this`deps, this`disabled
      ensures Sized(S(), n) && DepsOk(S(), edges) && DisabledOk(S(), edges, actions, 0, |edges|)
                && RanOk(S(), edges, ran, 0, |edges|)
      ensures PendingOk(S(), pending)
    {
      hide DepsMid, DisabledOk, RanOk, PendingOk;
      pending := rest;
      for k := 0 to |edges|
        invariant Sized(S(), n) && DepsMid(S(), edges, node, k) && DisabledOk(S(), edges, actions, node, k)
        invariant RanOk(S(), edges, ran, node, k) && PendingOk(S(), pending)
      {
        var e := edges[k];
        if e.source == node {
          Counted(S(), edges, node, k);
        }
        FollowDeps(S(), edges, node, k);
        FollowDisabled(S(), edges, actions, node, k);
        FollowPending(S(), e, node, pending);
        FollowRan(S(), edges, actions, ran, node, k);
        if e.source == node {
          var successor := e.target;
          assert deps[successor] != 0;
          deps := deps[successor := deps[successor] - 1];
          if disabled[node] && e.propagates {
            disabled := disabled[successor := true];
          }
          if wanted[successor] && !done[successor] && deps[successor] == 0 {
            pending := pending + [successor];
          }
        }
      }
      Followed(S(), edges, node);
      AnyNode(S(), edges, actions, ran, node, 0);
    }

    /** `execute_graph`.  No assertion inside the loops fires; whatever is reached is reached once, after its
        sources; and the final assertion, that every wanted node is done, holds exactly when the wanted part
        of the graph has no cycle. */
    method Execute(goal: Option<nat>) returns (allDone: bool)
      requires Valid() && (goal.Some? ==> goal.value < n)
      modifies this`deps, this`wanted, this`done, this`disabled, this`order, this`ran
      ensures Valid() && old(order) <= order
      ensures goal.Some? ==> forall t :: 0 <= t < n ==> (wanted[t] <==> old(wanted)[t] || Needed(edges, t, goal.value))
      ensures goal.None? ==> forall t :: 0 <= t < n ==> wanted[t]
      ensures allDone <==> AllDone(S())
      ensures allDone <==> Acyclic(edges, wanted)
    {
      hide DepsOk, DisabledOk, OrderOk, PendingOk, RanOk, SourcesDone, SourcesWanted, Needed, AllDone, Acyclic;
      Want(goal);
      Reached();
      allDone := true;
      for t := 0 to n
        invariant allDone <==> forall u :: 0 <= u < t && wanted[u] ==> done[u]
      {
        if wanted[t] && !done[t] {
          allDone := false;
        }
      }
      AllDoneIs(S());
    }

    /** The marking part. */
    method Want(goal: Option<nat>)
      requires Valid() && (goal.Some? ==> goal.value < n)
      modifies this`wanted
      ensures Valid()
      ensures goal.Some? ==> forall t :: 0 <= t < n ==> (wanted[t] <==> old(wanted)[t] || Needed(edges, t, goal.value))
      ensures goal.None? ==> forall t :: 0 <= t < n ==> wanted[t]
    {
      hide DepsOk, DisabledOk, OrderOk, RanOk, SourcesDone, Needed;
      if goal.Some? {
        Mark(goal.value);
      } else {
        wanted := seq(n, _ => true);
      }
      WantedOnly(old(S()), S(), edges, actions, ran);
    }

    /** The main loop. */
    method Reached()
      requires Valid()
      modifies this`deps, this`done, this`disabled, this`order, this`ran
      ensures Valid() && old(order) <= order && (AllDone(S()) <==> Acyclic(edges, wanted))
    {
      hide DepsOk, DisabledOk, OrderOk, PendingOk, RanOk, SourcesDone, SourcesWanted, AllDone, Acyclic;
      var pending := Ready();
      while pending != []
        invariant Valid() && PendingOk(S(), pending) && old(order) <= order
        decreases Alive(done)
      {
        pending := Turn(pending);
      }
      Outcome();
    }

    /** The nodes that the worklist starts with. */
    method Ready() returns (pending: seq<nat>)
      requires Sized(S(), n)
      ensures PendingOk(S(), pending)
    {
      pending := [];
      for t := 0 to n
        invariant forall i :: 0 <= i < |pending| ==> pending[i] < t && IsReady(S(), pending[i])
        invariant forall i, j :: 0 <= i < j < |pending| ==> pending[i] != pending[j]
        invariant forall u :: 0 <= u < t && IsReady(S(), u) ==> u in pending
      {
        if wanted[t] && !done[t] && deps[t] == 0 {
          pending := pending + [t];
        }
      }
    }

    /** One turn of the main loop. */
    method Turn(pending: seq<nat>) returns (next: seq<nat>)
      requires Valid() && PendingOk(S(), pending) && pending != []
      modifies this`deps, this`done, this`disabled, this`order, this`ran
      ensures Valid() && PendingOk(S(), next) && order == old(order) + [pending[0]] && Alive(done) < Alive(old(done))
    {
      hide DepsOk, DepsMid, DisabledOk, OrderOk, PendingOk, RanOk, SourcesDone, SourcesWanted;
      var node := pending[0];
      assert pending == [node] + pending[1..];
      OnReached(node, pending[1..]);
      Gone(old(done), node);
      next := FollowEdges(node, pending[1..]);
    }

    lemma Outcome()
      requires Valid() && PendingOk(S(), [])
      ensures AllDone(S()) <==> Acyclic(edges, wanted)
    {
      if AllDone(S()) {
        OrderRanks(S(), edges, order);
      }
      if Acyclic(edges, wanted) {
        var rank :| Ranks(rank, edges, wanted);
        forall t | 0 <= t < n && wanted[t]
          ensures done[t]
        {
          RankReached(S(), edges, rank, t);
        }
      }
    }
  }

  lemma WantedOnly(s: Nodes, m: Nodes, edges: seq<Edge>, actions: seq<Action>, ran: set<nat>)
    requires m == s.(wanted := m.wanted) && DepsOk(s, edges) && DisabledOk(s, edges, actions, 0, |edges|)
              && RanOk(s, edges, ran, 0, |edges|)
    ensures DepsOk(m, edges) && DisabledOk(m, edges, actions, 0, |edges|) && RanOk(m, edges, ran, 0, |edges|)
  {
    forall t
      ensures Inherits(m, edges, t, 0, |edges|) <==> Inherits(s, edges, t, 0, |edges|)
    {
      if Inherits(s, edges, t, 0, |edges|) {
        var i :| 0 <= i < |edges| && Passes(s, edges[i], t);
        assert Passes(m, edges[i], t);
      }
      if Inherits(m, edges, t, 0, |edges|) {
        var i :| 0 <= i < |edges| && Passes(m, edges[i], t);
        assert Passes(s, edges[i], t);
      }
    }
  }

  lemma AllDoneIs(s: Nodes)
    ensures AllDone(s) <==> forall t :: 0 <= t < |s.wanted| && t < |s.done| && s.wanted[t] ==> s.done[t]
  {
  }

  lemma Gone(done: seq<bool>, node: nat)
    requires node < |done| && !done[node]
    ensures Alive(done[node := true]) < Alive(done)
  {
    assert node in Alive(done) && node !in Alive(done[node := true]);
  }

  lemma FirstReady(s: Nodes, node: nat, rest: seq<nat>)
    requires PendingOk(s, [node] + rest)
    ensures IsReady(s, node)
  {
    assert ([node] + rest)[0] == node;
  }

  lemma NoDoneTarget(s: Nodes, edges: seq<Edge>, node: nat)
    requires SourcesDone(s.done, edges) && node < |s.done| && !s.done[node]
    requires forall i :: 0 <= i < |edges| && edges[i].target == node ==> s.done[edges[i].source]
    ensures forall i :: 0 <= i < |edges| && edges[i].source == node ==>
              edges[i].target != node && !s.done[edges[i].target]
  {
  }

  lemma ReachRan(s: Nodes, edges: seq<Edge>, actions: seq<Action>, ran: set<nat>, node: nat)
    requires DisabledOk(s, edges, actions, 0, |edges|) && SourcesDone(s.done, edges) && RanOk(s, edges, ran, 0, |edges|)
    requires node < |s.done| && !s.done[node]
    requires forall i :: 0 <= i < |edges| && edges[i].target == node ==> s.done[edges[i].source]
    ensures RanOk(Reach(s, node, !s.disabled[node] && actions[node] == Gate(false)), edges,
                  if s.disabled[node] then ran else ran + {node}, node, 0)
  {
    ReachDisabled(s, edges, actions, node, 0, 0);
    hide Inherits, SourcesDone;
  }

  lemma FollowRan(s: Nodes, edges: seq<Edge>, actions: seq<Action>, ran: set<nat>, node: nat, k: nat)
    requires k < |edges| && DisabledOk(s, edges, actions, node, k) && EdgesIn(edges, |s.done|) && |s.deps| == |s.done|
    requires node < |s.done| && s.done[node]
              && (edges[k].source == node ==> s.deps[edges[k].target] > 0 && !s.done[edges[k].target])
    requires RanOk(s, edges, ran, node, k)
    ensures RanOk(Follow(s, edges[k], node), edges, ran, node, k + 1)
  {
    FollowDisabled(s, edges, actions, node, k);
    hide Inherits, DisabledOk;
  }

  /** Once all edges are followed it no longer matters whose they were. */
  lemma AnyNode(s: Nodes, edges: seq<Edge>, actions: seq<Action>, ran: set<nat>, a: nat, b: nat)
    requires DisabledOk(s, edges, actions, a, |edges|) && RanOk(s, edges, ran, a, |edges|)
    ensures DisabledOk(s, edges, actions, b, |edges|) && RanOk(s, edges, ran, b, |edges|)
  {
    forall t
      ensures Inherits(s, edges, t, a, |edges|) <==> Inherits(s, edges, t, b, |edges|)
    {
    }
  }

  lemma Shrinks(a: seq<bool>, b: seq<bool>)
    requires |a| == |b| && forall t :: 0 <= t < |a| && a[t] ==> b[t]
    ensures Alive(b) <= Alive(a)
    ensures (exists t :: 0 <= t < |a| && b[t] && !a[t]) ==> Alive(b) < Alive(a)
  {
    if t :| 0 <= t < |a| && b[t] && !a[t] {
      assert t in Alive(a) && t !in Alive(b);
    }
  }

  lemma NothingDone(order: seq<nat>, done: seq<bool>, edges: seq<Edge>)
    requires OrderOk(order, done, edges) && order == []
    ensures forall t :: 0 <= t < |done| ==> !done[t]
  {
  }

  /** An action runs exactly when its node is reached and inherits no disabling. */
  ghost predicate RanOk(s: Nodes, edges: seq<Edge>, ran: set<nat>, node: nat, k: nat) {
    forall t: nat :: t in ran <==> t < |s.done| && s.done[t] && !Inherits(s, edges, t, node, k)
  }
}
