/** Topological sort of the dependency arcs with Kahn's algorithm (flowd/tsort.go). */
module Tsort {
  import opened Text
  import opened Collections

  datatype Arc = Arc(source: string, target: string)

  // ---- Graphs --------------------------------------------------------------------------------------

  /** An arc from a node to itself adds the node but no edge. */
  ghost predicate IsEdge(graph: seq<Arc>, s: string, t: string) {
    s != t && Arc(s, t) in graph
  }

  function Nodes(graph: seq<Arc>): set<string> {
    if graph == [] then {} else Nodes(graph[..|graph| - 1]) + {graph[|graph| - 1].source, graph[|graph| - 1].target}
  }

  /** A walk along edges. */
  ghost predicate Walk(graph: seq<Arc>, p: seq<string>) {
    |p| > 0 && forall i :: 0 <= i < |p| - 1 ==> IsEdge(graph, p[i], p[i + 1])
  }

  ghost predicate Cyclic(graph: seq<Arc>) {
    exists p :: Cycle(graph, p)
  }

  ghost predicate Cycle(graph: seq<Arc>, p: seq<string>) {
    Walk(graph, p) && |p| > 1 && p[0] == p[|p| - 1]
  }

  /** Each node once, and every edge points forward. */
  ghost predicate TopologicalOrder(graph: seq<Arc>, order: seq<string>) {
    && (forall n :: n in order <==> n in Nodes(graph))
    && Distinct(order)
    && SourcesFirst(graph, order)
  }

  ghost predicate SourcesFirst(graph: seq<Arc>, order: seq<string>) {
    forall j, s :: 0 <= j < |order| && IsEdge(graph, s, order[j]) ==> s in order[..j]
  }

  lemma {:induction false} NodesOf(graph: seq<Arc>, i: nat)
    requires i < |graph|
    ensures graph[i].source in Nodes(graph) && graph[i].target in Nodes(graph)
  {
    if i < |graph| - 1 {
      NodesOf(graph[..|graph| - 1], i);
    }
  }

  lemma {:induction false} EdgeNodes(graph: seq<Arc>, s: string, t: string)
    requires IsEdge(graph, s, t)
    ensures s in Nodes(graph) && t in Nodes(graph)
  {
    var i :| 0 <= i < |graph| && graph[i] == Arc(s, t);
    NodesOf(graph, i);
  }

  // ---- Counting arcs -------------------------------------------------------------------------------

  /** The targets of the edges out of a node, duplicates included, in the order of the arcs. */
  function Targets(graph: seq<Arc>, s: string): seq<string> {
    if graph == [] then []
    else
      var a := graph[|graph| - 1];
      Targets(graph[..|graph| - 1], s) + if a.source == s && a.source != a.target then [a.target] else []
  }

  /** How many edges into `t` come from nodes outside `done`. */
  function Inbound(graph: seq<Arc>, done: set<string>, t: string): nat {
    if graph == [] then 0
    else
      var a := graph[|graph| - 1];
      Inbound(graph[..|graph| - 1], done, t) + if a.target == t && a.source != a.target && a.source !in done then 1 else 0
  }

  function Occurrences(xs: seq<string>, x: string): nat {
    if xs == [] then 0 else Occurrences(xs[..|xs| - 1], x) + if xs[|xs| - 1] == x then 1 else 0
  }

  lemma {:induction false} InboundEdge(graph: seq<Arc>, done: set<string>, t: string)
    ensures Inbound(graph, done, t) > 0 <==> exists s :: s !in done && IsEdge(graph, s, t)
  {
    if graph != [] {
      var rest, a := graph[..|graph| - 1], graph[|graph| - 1];
      InboundEdge(rest, done, t);
      assert graph == rest + [a];
      forall s ensures IsEdge(graph, s, t) <==> IsEdge(rest, s, t) || (s != t && a == Arc(s, t)) {
      }
      if a.target == t && a.source != a.target && a.source !in done {
        assert IsEdge(graph, a.source, t);
      }
    }
  }

  lemma {:induction false} CountAppend(xs: seq<string>, x: string, y: string)
    ensures Occurrences(xs + [y], x) == Occurrences(xs, x) + if y == x then 1 else 0
  {
    assert (xs + [y])[..|xs|] == xs;
  }

  /** Taking a node into `done` removes its edges from the count. */
  lemma {:induction false} InboundStep(graph: seq<Arc>, done: set<string>, r: string, t: string)
    requires r !in done
    ensures Inbound(graph, done, t) == Inbound(graph, done + {r}, t) + Occurrences(Targets(graph, r), t)
  {
    if graph != [] {
      var rest, a := graph[..|graph| - 1], graph[|graph| - 1];
      InboundStep(rest, done, r, t);
      if a.source == r && a.source != a.target {
        CountAppend(Targets(rest, r), t, a.target);
      } else {
        assert Targets(rest, r) + [] == Targets(rest, r);
      }
    }
  }

  lemma {:induction false} TargetsAreEdges(graph: seq<Arc>, s: string, t: string)
    requires t in Targets(graph, s)
    ensures IsEdge(graph, s, t)
  {
    var rest, a := graph[..|graph| - 1], graph[|graph| - 1];
    assert graph == rest + [a];
    if t in Targets(rest, s) {
      TargetsAreEdges(rest, s, t);
    }
  }

  // ---- Orders and cycles ---------------------------------------------------------------------------

  /** In an order with sources first, a walk only moves forward. */
  lemma {:induction false} WalkInOrder(graph: seq<Arc>, order: seq<string>, p: seq<string>, j: nat)
    requires SourcesFirst(graph, order) && Walk(graph, p) && |p| > 1
    requires j < |order| && order[j] == p[|p| - 1]
    ensures p[0] in order[..j]
    decreases |p|
  {
    var m := |p| - 2;
    assert IsEdge(graph, p[m], p[m + 1]);
    assert p[m] in order[..j];
    if m > 0 {
      var i :| 0 <= i < j && order[..j][i] == p[m];
      var q := p[..|p| - 1];
      forall k | 0 <= k < |q| - 1 ensures IsEdge(graph, q[k], q[k + 1]) {
        assert IsEdge(graph, p[k], p[k + 1]);
      }
      WalkInOrder(graph, order, q, i);
      assert order[..i] == order[..j][..i];
    }
  }

  lemma {:induction false} OrderedIsAcyclic(graph: seq<Arc>, order: seq<string>)
    requires TopologicalOrder(graph, order)
    ensures !Cyclic(graph)
  {
    forall p | Cycle(graph, p) ensures false {
      var last := |p| - 1;
      assert IsEdge(graph, p[last - 1], p[last - 1 + 1]);
      EdgeNodes(graph, p[last - 1], p[last]);
      var j :| 0 <= j < |order| && order[j] == p[last];
      WalkInOrder(graph, order, p, j);
    }
  }

  /** A cycle goes on: it has two edges in a row. */
  lemma {:induction false} CycleGoesOn(graph: seq<Arc>)
    ensures Cyclic(graph) ==> exists s, t, u :: IsEdge(graph, s, t) && IsEdge(graph, t, u)
  {
    if p :| Cycle(graph, p) {
      assert IsEdge(graph, p[0], p[0 + 1]);
      assert IsEdge(graph, p[1], p[1 + 1]);
    }
  }

  /** Every node of a set has an edge into it from the set. */
  ghost predicate Blocked(graph: seq<Arc>, rest: set<string>) {
    forall t {:trigger HasSource(graph, rest, t)} :: t in rest ==> HasSource(graph, rest, t)
  }

  ghost predicate HasSource(graph: seq<Arc>, rest: set<string>, t: string) {
    exists s :: s in rest && IsEdge(graph, s, t)
  }

  /** Walking backwards inside a blocked set never ends. */
  lemma {:induction false} LongWalk(graph: seq<Arc>, rest: set<string>, t: string, n: nat) returns (p: seq<string>)
    requires Blocked(graph, rest) && t in rest
    ensures Walk(graph, p) && |p| == n + 1 && forall i :: 0 <= i < |p| ==> p[i] in rest
  {
    if n == 0 {
      p := [t];
    } else {
      var q := LongWalk(graph, rest, t, n - 1);
      assert HasSource(graph, rest, q[0]);
      var s :| s in rest && IsEdge(graph, s, q[0]);
      p := [s] + q;
      forall i | 0 <= i < |p| - 1 ensures IsEdge(graph, p[i], p[i + 1]) {
        if i > 0 {
          assert IsEdge(graph, q[i - 1], q[i - 1 + 1]);
        }
      }
    }
  }

  /** More places than values: some value repeats. */
  lemma {:induction false} Repeats(p: seq<string>, rest: set<string>) returns (i: nat, j: nat)
    requires |p| > |rest| && forall k :: 0 <= k < |p| ==> p[k] in rest
    ensures i < j < |p| && p[i] == p[j]
    decreases |p|
  {
    var last := |p| - 1;
    if p[last] in p[..last] {
      i :| 0 <= i < last && p[..last][i] == p[last];
      j := last;
    } else {
      forall k | 0 <= k < last ensures p[..last][k] in rest - {p[last]} {
        assert p[..last][k] in p[..last];
      }
      i, j := Repeats(p[..last], rest - {p[last]});
    }
  }

  lemma {:induction false} BlockedIsCyclic(graph: seq<Arc>, rest: set<string>)
    requires Blocked(graph, rest) && rest != {}
    ensures Cyclic(graph)
  {
    var t :| t in rest;
    var p := LongWalk(graph, rest, t, |rest|);
    var i, j := Repeats(p, rest);
    var q := p[i..j + 1];
    forall k | 0 <= k < |q| - 1 ensures IsEdge(graph, q[k], q[k + 1]) {
      assert IsEdge(graph, p[i + k], p[i + k + 1]);
    }
    assert Cycle(graph, q);
  }

  // ---- The algorithm -------------------------------------------------------------------------------

  function Get(m: map<string, nat>, k: string): nat {
    if k in m then m[k] else 0
  }

  function GetList(m: map<string, seq<string>>, k: string): seq<string> {
    if k in m then m[k] else []
  }

  /** The edge, node and inbound maps. */
  method BuildMaps(graph: seq<Arc>)
      returns (edge: map<string, seq<string>>, node: set<string>, inbound: map<string, nat>)
    ensures node == Nodes(graph)
    ensures forall s :: GetList(edge, s) == Targets(graph, s)
    ensures forall t :: Get(inbound, t) == Inbound(graph, {}, t)
  {
    edge, node, inbound := map[], {}, map[];
    for i := 0 to |graph|
      invariant node == Nodes(graph[..i])
      invariant forall s :: GetList(edge, s) == Targets(graph[..i], s)
      invariant forall t :: Get(inbound, t) == Inbound(graph[..i], {}, t)
    {
      assert graph[..i + 1][..i] == graph[..i];
      var a := graph[i];
      node := node + {a.source} + {a.target};
      if a.source != a.target {
        edge := edge[a.source := GetList(edge, a.source) + [a.target]];
        inbound := inbound[a.target := Get(inbound, a.target) + 1];
      }
      assert forall s :: Targets(graph[..i], s) + [] == Targets(graph[..i], s);
    }
    assert graph[..|graph|] == graph;
  }

  /** What the main loop keeps: the counts of unvisited sources, and the roots. */
  ghost predicate Progress(graph: seq<Arc>, order: seq<string>, inbound: map<string, nat>, root: set<string>) {
    && (forall n :: n in order ==> n in Nodes(graph))
    && Distinct(order)
    && SourcesFirst(graph, order)
    && (forall t :: Get(inbound, t) == Inbound(graph, Elements(order), t))
    && (forall n :: n in root <==> n in Nodes(graph) && n !in order && Get(inbound, n) == 0)
  }

  /** A root may come next: all its sources are in the order. */
  lemma {:induction false} RootIsNext(graph: seq<Arc>, order: seq<string>, r: string)
    requires SourcesFirst(graph, order) && Inbound(graph, Elements(order), r) == 0
    ensures SourcesFirst(graph, order + [r])
  {
    InboundEdge(graph, Elements(order), r);
    var more := order + [r];
    forall j, s | 0 <= j < |more| && IsEdge(graph, s, more[j]) ensures s in more[..j] {
      if j < |order| {
        assert IsEdge(graph, s, order[j]);
        assert more[..j] == order[..j];
      } else {
        assert more[..j] == order;
        assert s in Elements(order);
      }
    }
  }

  /** The inner loop: decrement the targets of the root just taken, and collect new roots. */
  method Visit(targets: seq<string>, inbound: map<string, nat>, root: set<string>)
      returns (inbound': map<string, nat>, root': set<string>)
    requires forall t :: Occurrences(targets, t) <= Get(inbound, t)
    ensures forall t :: Get(inbound', t) == Get(inbound, t) - Occurrences(targets, t)
    ensures forall n :: n in root' <==> n in root || (n in targets && Get(inbound', n) == 0)
  {
    inbound', root' := inbound, root;
    for i := 0 to |targets|
      invariant forall t :: Occurrences(targets[..i], t) <= Occurrences(targets, t)
      invariant forall t :: Get(inbound', t) == Get(inbound, t) - Occurrences(targets[..i], t)
      invariant forall n :: n in root' <==> n in root || (n in targets[..i] && Get(inbound', n) == 0)
    {
      var t := targets[i];
      assert targets[..i + 1] == targets[..i] + [t];
      forall x ensures Occurrences(targets[..i + 1], x) == Occurrences(targets[..i], x) + if x == t then 1 else 0 {
        CountAppend(targets[..i], x, t);
      }
      forall x ensures Occurrences(targets[..i + 1], x) <= Occurrences(targets, x) {
        CountPrefix(targets, i + 1, x);
      }
      inbound' := inbound'[t := Get(inbound', t) - 1];
      if Get(inbound', t) <= 0 {
        root' := root' + {t};
      }
    }
    assert targets[..|targets|] == targets;
  }

  lemma {:induction false} CountPrefix(xs: seq<string>, i: nat, x: string)
    requires i <= |xs|
    ensures Occurrences(xs[..i], x) <= Occurrences(xs, x)
  {
    if i < |xs| {
      var rest := xs[..|xs| - 1];
      CountPrefix(rest, i, x);
      assert rest[..i] == xs[..i];
    } else {
      assert xs[..i] == xs;
    }
  }

  /** Taking a root keeps what the main loop keeps. */
  lemma {:induction false} ProgressNext(graph: seq<Arc>, order: seq<string>, inbound: map<string, nat>, root: set<string>,
                   r: string, inbound': map<string, nat>, root': set<string>)
    requires Progress(graph, order, inbound, root) && r in root
    requires forall t :: Get(inbound', t) == Get(inbound, t) - Occurrences(Targets(graph, r), t)
    requires forall n :: n in root' <==> n in root - {r} || (n in Targets(graph, r) && Get(inbound', n) == 0)
    ensures Progress(graph, order + [r], inbound', root')
  {
    hide SourcesFirst, IsEdge, Targets, Occurrences, Inbound, Nodes;
    RootIsNext(graph, order, r);
    var more := order + [r];
    assert Elements(more) == Elements(order) + {r};
    forall t ensures Get(inbound', t) == Inbound(graph, Elements(more), t) {
      InboundStep(graph, Elements(order), r, t);
    }
    forall n ensures n in root' <==> n in Nodes(graph) && n !in more && Get(inbound', n) == 0 {
      TargetOrNot(graph, order, r, n);
    }
  }

  lemma {:induction false} TargetOrNot(graph: seq<Arc>, order: seq<string>, r: string, n: string)
    requires SourcesFirst(graph, order) && r !in order
    ensures if n in Targets(graph, r) then n in Nodes(graph) && n !in order && n != r else Occurrences(Targets(graph, r), n) == 0
  {
    if n in Targets(graph, r) {
      TargetsAreEdges(graph, r, n);
      EdgeNodes(graph, r, n);
      TargetNotTaken(graph, order, r, n);
    } else {
      CountZero(Targets(graph, r), n);
    }
  }

  lemma {:induction false} TargetNotTaken(graph: seq<Arc>, order: seq<string>, r: string, t: string)
    requires SourcesFirst(graph, order) && r !in order && IsEdge(graph, r, t)
    ensures t !in order
  {
    forall j | 0 <= j < |order| ensures order[j] != t {
      assert forall x :: x in order[..j] ==> x in order;
      if order[j] == t {
        assert false;
      }
    }
  }

  lemma {:induction false} CountZero(xs: seq<string>, x: string)
    requires x !in xs
    ensures Occurrences(xs, x) == 0
  {
    if xs != [] {
      CountZero(xs[..|xs| - 1], x);
    }
  }

  /** With no root left, the order is complete exactly when there is no cycle. */
  lemma {:induction false} NoRootLeft(graph: seq<Arc>, order: seq<string>, inbound: map<string, nat>)
    requires Progress(graph, order, inbound, {})
    ensures |order| == |Nodes(graph)| ==> TopologicalOrder(graph, order)
    ensures |order| == |Nodes(graph)| <==> !Cyclic(graph)
  {
    DistinctSize(order);
    SubsetSize(Elements(order), Nodes(graph));
    if |order| == |Nodes(graph)| {
      assert forall n :: n in order <==> n in Elements(order);
      OrderedIsAcyclic(graph, order);
    } else {
      var rest := Nodes(graph) - Elements(order);
      assert rest != {} by {
        assert Nodes(graph) == Elements(order) + rest;
      }
      forall t | t in rest ensures HasSource(graph, rest, t) {
        InboundEdge(graph, Elements(order), t);
        var s :| s !in Elements(order) && IsEdge(graph, s, t);
        EdgeNodes(graph, s, t);
        assert s in rest;
      }
      BlockedIsCyclic(graph, rest);
    }
  }

  /**
    * An order exists exactly when the graph without self-arcs has no cycle. It holds each node once and
    * puts the source of every edge before its target, whichever root is taken each time.
    */
  method Tsort(graph: seq<Arc>) returns (order: Option<seq<string>>)
    ensures order.Some? <==> !Cyclic(graph)
    ensures order.Some? ==> TopologicalOrder(graph, order.value)
  {
    var edge, node, inbound := BuildMaps(graph);
    var root := set n | n in node && Get(inbound, n) == 0;
    var visited := [];
    assert Elements(visited) == {};
    while root != {}
      invariant Progress(graph, visited, inbound, root)
      decreases |Nodes(graph)| - |visited|
    {
      var r1 :| r1 in root;
      var targets := GetList(edge, r1);
      forall t ensures Occurrences(targets, t) <= Get(inbound, t) {
        InboundStep(graph, Elements(visited), r1, t);
      }
      var inbound', root' := Visit(targets, inbound, root - {r1});
      ProgressNext(graph, visited, inbound, root, r1, inbound', root');
      Bounded(graph, visited + [r1]);
      visited, inbound, root := visited + [r1], inbound', root';
    }
    NoRootLeft(graph, visited, inbound);
    order := if |visited| == |node| then Some(visited) else None;
  }

  lemma {:induction false} Bounded(graph: seq<Arc>, order: seq<string>)
    requires forall n :: n in order ==> n in Nodes(graph)
    requires Distinct(order)
    ensures |order| <= |Nodes(graph)|
  {
    DistinctSize(order);
    SubsetSize(Elements(order), Nodes(graph));
  }
}
