/** The pipeline graph (internal/engine/graph.go): construction, degree rules and
    three-colour cycle detection. Go's iteration over a map has no fixed order, so
    every such loop here picks an arbitrary remaining element. */
module Graphs {
  import opened Collections

  datatype NodeType = Source | Operator | Sink

  datatype Edge = Edge(fromNode: string, fromPort: string, toNode: string, toPort: string)

  datatype GraphError =
    | DuplicateNode(id: string)
    | SourceNotFound(id: string)
    | DestinationNotFound(id: string)
    | NoNodes
    | Dangling(id: string)
    | SourceHasIncoming(id: string)
    | SinkHasOutgoing(id: string)
    | OperatorNoIncoming(id: string)
    | OperatorNoOutgoing(id: string)
    | Cycle(id: string)

  datatype Outcome = Ok | Err(error: GraphError)

  // ---------------------------------------------------------------- walks

  ghost predicate HasEdge(edges: seq<Edge>, u: string, v: string) {
    exists i :: 0 <= i < |edges| && edges[i].fromNode == u && edges[i].toNode == v
  }

  ghost predicate IsWalk(edges: seq<Edge>, p: seq<string>) {
    && |p| >= 1
    && forall i :: 0 <= i < |p| - 1 ==> HasEdge(edges, p[i], p[i + 1])
  }

  ghost predicate IsWalkFromTo(edges: seq<Edge>, p: seq<string>, u: string, v: string) {
    IsWalk(edges, p) && p[0] == u && p[|p| - 1] == v
  }

  /** `v` lies on a closed walk with at least one edge. */
  ghost predicate OnCycle(edges: seq<Edge>, v: string) {
    exists p :: |p| >= 2 && IsWalkFromTo(edges, p, v, v)
  }

  ghost predicate Acyclic(edges: seq<Edge>) {
    forall v :: !OnCycle(edges, v)
  }

  ghost predicate Reaches(edges: seq<Edge>, u: string, v: string) {
    exists p :: IsWalkFromTo(edges, p, u, v)
  }

  // ---------------------------------------------------------------- degree rules

  ghost predicate HasIncoming(edges: seq<Edge>, v: string) {
    exists i :: 0 <= i < |edges| && edges[i].toNode == v
  }

  ghost predicate HasOutgoing(edges: seq<Edge>, v: string) {
    exists i :: 0 <= i < |edges| && edges[i].fromNode == v
  }

  ghost predicate Closed(nodes: set<string>, edges: seq<Edge>) {
    forall i :: 0 <= i < |edges| ==> edges[i].fromNode in nodes && edges[i].toNode in nodes
  }

  ghost predicate DegreesOk(edges: seq<Edge>, v: string, t: NodeType) {
    match t
    case Source => !HasIncoming(edges, v)
    case Sink => !HasOutgoing(edges, v)
    case Operator => HasIncoming(edges, v) && HasOutgoing(edges, v)
  }

  ghost predicate AllConnected(nodes: map<string, NodeType>, edges: seq<Edge>) {
    |nodes| > 1 ==> forall v :: v in nodes ==> HasIncoming(edges, v) || HasOutgoing(edges, v)
  }

  /** What an accepted graph satisfies. */
  ghost predicate WellFormed(nodes: map<string, NodeType>, edges: seq<Edge>) {
    && |nodes| > 0
    && AllConnected(nodes, edges)
    && (forall v :: v in nodes ==> DegreesOk(edges, v, nodes[v]))
    && Acyclic(edges)
  }

  /** What each reported error says about the graph. */
  ghost predicate ErrorJustified(nodes: map<string, NodeType>, edges: seq<Edge>, e: GraphError) {
    match e
    case NoNodes => nodes == map[]
    case Dangling(v) => v in nodes && |nodes| > 1 && !HasIncoming(edges, v) && !HasOutgoing(edges, v)
    case SourceHasIncoming(v) => v in nodes && nodes[v] == Source && HasIncoming(edges, v)
    case SinkHasOutgoing(v) => v in nodes && nodes[v] == Sink && HasOutgoing(edges, v)
    case OperatorNoIncoming(v) => v in nodes && nodes[v] == Operator && !HasIncoming(edges, v)
    case OperatorNoOutgoing(v) => v in nodes && nodes[v] == Operator && !HasOutgoing(edges, v)
    case Cycle(v) => v in nodes && OnCycle(edges, v)
    case _ => false
  }

  // ---------------------------------------------------------------- graph container

  class Graph {
    const name: string
    var nodes: map<string, NodeType>
    var edges: seq<Edge>

    ghost predicate Valid()
      reads this
    {
      Closed(nodes.Keys, edges)
    }

    constructor (name: string)
      ensures Valid() && nodes == map[] && edges == [] && this.name == name
    {
      this.name := name;
      nodes, edges := map[], [];
    }

    method AddNode(id: string, nodeType: NodeType) returns (r: Outcome)
      requires Valid()
      modifies this
      ensures Valid() && edges == old(edges)
      ensures id in old(nodes) ==> r == Err(DuplicateNode(id)) && nodes == old(nodes)
      ensures id !in old(nodes) ==> r == Ok && nodes == old(nodes)[id := nodeType]
    {
      if id in nodes {
        return Err(DuplicateNode(id));
      }
      nodes := nodes[id := nodeType];
      return Ok;
    }

    method AddEdge(edge: Edge) returns (r: Outcome)
      requires Valid()
      modifies this
      ensures Valid() && nodes == old(nodes)
      ensures r == Ok <==> edge.fromNode in nodes && edge.toNode in nodes
      ensures r == Ok ==> edges == old(edges) + [edge]
      ensures r != Ok ==> edges == old(edges) &&
                          r == Err(if edge.fromNode !in nodes then SourceNotFound(edge.fromNode)
                                   else DestinationNotFound(edge.toNode))
    {
      if edge.fromNode !in nodes {
        return Err(SourceNotFound(edge.fromNode));
      }
      if edge.toNode !in nodes {
        return Err(DestinationNotFound(edge.toNode));
      }
      edges := edges + [edge];
      return Ok;
    }

    /** Accepts exactly the well-formed graphs, and every error it reports is true of the graph. */
    method Validate() returns (r: Outcome)
      requires Valid()
      ensures r == Ok <==> WellFormed(nodes, edges)
      ensures r.Err? ==> ErrorJustified(nodes, edges, r.error)
    {
      if |nodes| == 0 {
        return Err(NoNodes);
      }

      r := CheckConnected();
      if r.Err? { return; }
      r := CheckDegrees();
      if r.Err? { return; }
      r := DetectCycles();
    }

    method CheckConnected() returns (r: Outcome)
      ensures r == Ok <==> AllConnected(nodes, edges)
      ensures r.Err? ==> r.error.Dangling? && ErrorJustified(nodes, edges, r.error)
    {
      var connected := ConnectedNodes(edges);
      var todo := nodes.Keys;
      while todo != {}
        invariant todo <= nodes.Keys
        invariant |nodes| > 1 ==> forall v :: v in nodes && v !in todo ==> v in connected
        decreases todo
      {
        var id :| id in todo;
        if id !in connected && |nodes| > 1 {
          return Err(Dangling(id));
        }
        todo := todo - {id};
      }
      return Ok;
    }

    method CheckDegrees() returns (r: Outcome)
      ensures r == Ok <==> forall v :: v in nodes ==> DegreesOk(edges, v, nodes[v])
      ensures r.Err? ==> ErrorJustified(nodes, edges, r.error)
    {
      var incoming, outgoing := CountDegrees(edges);
      var todo := nodes.Keys;
      while todo != {}
        invariant todo <= nodes.Keys
        invariant forall v :: v in nodes && v !in todo ==> DegreesOk(edges, v, nodes[v])
        decreases todo
      {
        var id :| id in todo;
        match nodes[id] {
          case Source =>
            if Count(incoming, id) > 0 { return Err(SourceHasIncoming(id)); }
          case Sink =>
            if Count(outgoing, id) > 0 { return Err(SinkHasOutgoing(id)); }
          case Operator =>
            if Count(incoming, id) == 0 { return Err(OperatorNoIncoming(id)); }
            if Count(outgoing, id) == 0 { return Err(OperatorNoOutgoing(id)); }
        }
        todo := todo - {id};
      }
      return Ok;
    }

    /** Three-colour depth-first search, in any visiting order. */
    method DetectCycles() returns (r: Outcome)
      requires Valid()
      ensures r == Ok <==> Acyclic(edges)
      ensures r.Err? ==> r.error.Cycle? && r.error.id in nodes && OnCycle(edges, r.error.id)
    {
      var adj := Adjacency(edges);
      var search := new DepthFirst(nodes.Keys, edges, adj);
      var todo := nodes.Keys;
      while todo != {}
        invariant todo <= nodes.Keys && fresh(search)
        invariant search.Valid() && Colored(search.color, Gray) == {}
        invariant nodes.Keys - todo <= Colored(search.color, Black)
        decreases todo
      {
        var id :| id in todo;
        assert search.color[id] != Gray by {
          assert id !in Colored(search.color, Gray);
        }
        if search.color[id] == White {
          r := search.Visit(id, []);
          if r.Err? { return; }
        }
        assert id in Colored(search.color, Black);
        todo := todo - {id};
      }
      assert forall v :: v in nodes ==> v in Colored(search.color, Black);
      AllBlackIsAcyclic(search);
      return Ok;
    }
  }

  function Count(m: map<string, nat>, v: string): nat {
    if v in m then m[v] else 0
  }

  method ConnectedNodes(edges: seq<Edge>) returns (connected: set<string>)
    ensures forall v :: v in connected <==> HasIncoming(edges, v) || HasOutgoing(edges, v)
  {
    connected := {};
    for k := 0 to |edges|
      invariant forall v :: v in connected <==> HasIncoming(edges[..k], v) || HasOutgoing(edges[..k], v)
    {
      connected := connected + {edges[k].fromNode, edges[k].toNode};
      assert edges[..k + 1] == edges[..k] + [edges[k]];
      SnocDegrees(edges[..k], edges[k]);
    }
    assert edges[..|edges|] == edges;
  }

  method CountDegrees(edges: seq<Edge>) returns (incoming: map<string, nat>, outgoing: map<string, nat>)
    ensures forall v :: Count(incoming, v) > 0 <==> HasIncoming(edges, v)
    ensures forall v :: Count(outgoing, v) > 0 <==> HasOutgoing(edges, v)
  {
    incoming, outgoing := map[], map[];
    for k := 0 to |edges|
      invariant forall v :: Count(incoming, v) > 0 <==> HasIncoming(edges[..k], v)
      invariant forall v :: Count(outgoing, v) > 0 <==> HasOutgoing(edges[..k], v)
    {
      var e := edges[k];
      outgoing := outgoing[e.fromNode := Count(outgoing, e.fromNode) + 1];
      incoming := incoming[e.toNode := Count(incoming, e.toNode) + 1];
      assert edges[..k + 1] == edges[..k] + [e];
      SnocDegrees(edges[..k], e);
    }
    assert edges[..|edges|] == edges;
  }

  lemma SnocDegrees(edges: seq<Edge>, e: Edge)
    ensures forall v :: HasIncoming(edges + [e], v) <==> HasIncoming(edges, v) || e.toNode == v
    ensures forall v :: HasOutgoing(edges + [e], v) <==> HasOutgoing(edges, v) || e.fromNode == v
  {
    var all := edges + [e];
    assert all[|edges|] == e;
    forall v | HasIncoming(edges, v) ensures HasIncoming(all, v) {
      var i :| 0 <= i < |edges| && edges[i].toNode == v;
      assert all[i].toNode == v;
    }
    forall v | HasOutgoing(edges, v) ensures HasOutgoing(all, v) {
      var i :| 0 <= i < |edges| && edges[i].fromNode == v;
      assert all[i].fromNode == v;
    }
  }

  // ---------------------------------------------------------------- depth-first search

  datatype Color = White | Gray | Black

  /** The successor list of every node, in edge order. */
  ghost predicate IsAdjacency(edges: seq<Edge>, adj: map<string, seq<string>>) {
    forall u, v :: HasEdge(edges, u, v) <==> u in adj && v in adj[u]
  }

  method Adjacency(edges: seq<Edge>) returns (adj: map<string, seq<string>>)
    ensures IsAdjacency(edges, adj)
  {
    adj := map[];
    for k := 0 to |edges|
      invariant IsAdjacency(edges[..k], adj)
    {
      var e := edges[k];
      ghost var before := adj;
      adj := adj[e.fromNode := (if e.fromNode in adj then adj[e.fromNode] else []) + [e.toNode]];
      assert edges[..k + 1] == edges[..k] + [e];
      SnocEdge(edges[..k], e);
    }
    assert edges[..|edges|] == edges;
  }

  lemma SnocEdge(edges: seq<Edge>, e: Edge)
    ensures forall u, v :: HasEdge(edges + [e], u, v) <==> HasEdge(edges, u, v) || (e.fromNode == u && e.toNode == v)
  {
    var all := edges + [e];
    assert all[|edges|] == e;
    forall u, v | HasEdge(edges, u, v) ensures HasEdge(all, u, v) {
      var i :| 0 <= i < |edges| && edges[i].fromNode == u && edges[i].toNode == v;
      assert all[i].fromNode == u && all[i].toNode == v;
    }
  }

  ghost function Colored(color: map<string, Color>, c: Color): set<string> {
    set v | v in color && color[v] == c
  }

  ghost function Elements(p: seq<string>): set<string> {
    set v | v in p
  }

  ghost predicate EdgesWithin(edges: seq<Edge>, nodes: set<string>) {
    forall u, v :: HasEdge(edges, u, v) ==> u in nodes && v in nodes
  }

  /** Black nodes lead only to black nodes. */
  ghost predicate BlackClosed(edges: seq<Edge>, color: map<string, Color>) {
    forall u, v :: HasEdge(edges, u, v) && u in color && color[u] == Black ==> v in color && color[v] == Black
  }

  /** Moreover no black node lies on a cycle. */
  ghost predicate BlackDone(edges: seq<Edge>, color: map<string, Color>) {
    && BlackClosed(edges, color)
    && forall v :: v in color && color[v] == Black ==> !OnCycle(edges, v)
  }

  /** The state the recursive search shares: one colour per node. */
  class DepthFirst {
    ghost const nodes: set<string>
    ghost const edges: seq<Edge>
    const adj: map<string, seq<string>>
    var color: map<string, Color>

    /** Of the constants only. */
    ghost predicate Wired() {
      IsAdjacency(edges, adj) && EdgesWithin(edges, nodes)
    }

    ghost predicate Valid()
      reads this
    {
      color.Keys == nodes && BlackDone(edges, color)
    }

    constructor (nodes: set<string>, ghost edges: seq<Edge>, adj: map<string, seq<string>>)
      requires IsAdjacency(edges, adj) && EdgesWithin(edges, nodes)
      ensures Wired() && Valid() && Colored(color, Gray) == {}
      ensures this.nodes == nodes && this.edges == edges && this.adj == adj
    {
      this.nodes, this.edges, this.adj := nodes, edges, adj;
      color := map v | v in nodes :: White;
    }

    /** Explores everything reachable from a white node. `stack` is the call stack: the gray
        nodes, each with an edge to the next, the last with an edge to `node`. */
    method Visit(node: string, ghost stack: seq<string>) returns (r: Outcome)
      requires Wired() && Valid() && node in nodes && color[node] == White
      requires IsWalk(edges, stack + [node])
      requires Colored(color, Gray) == Elements(stack)
      modifies this`color
      ensures r.Ok? ==> Valid() && Colored(color, Gray) == Elements(stack)
      ensures r.Ok? ==> Colored(old(color), Black) + {node} <= Colored(color, Black)
      ensures r.Ok? ==> Colored(color, White) < Colored(old(color), White)
      ensures r.Err? ==> r.error.Cycle? && r.error.id in nodes && OnCycle(edges, r.error.id)
      decreases Colored(color, White)
    {
      assert node !in stack by {
        assert node !in Elements(stack);
      }
      EnterNode(edges, color, node, stack);
      color := color[node := Gray];
      ghost var path := stack + [node];
      var successors := if node in adj then adj[node] else [];
      for k := 0 to |successors|
        invariant Valid() && Colored(color, Gray) == Elements(path)
        invariant Colored(color, White) < Colored(old(color), White)
        invariant Colored(old(color), Black) <= Colored(color, Black)
        invariant Elements(successors[..k]) <= Colored(color, Black)
      {
        var next := successors[k];
        assert HasEdge(edges, node, next);
        assert next in Elements(path) <==> color[next] == Gray;
        assert Elements(successors[..k + 1]) == Elements(successors[..k]) + {next};
        match color[next] {
          case Gray =>
            CloseCycle(edges, path, next);
            return Err(Cycle(next));
          case White =>
            ExtendWalk(edges, path, next);
            r := Visit(next, path);
            if r.Err? { return; }
          case Black =>
        }
      }
      assert successors[..|successors|] == successors;
      assert node in Elements(path);
      LeaveNode(edges, color, node, stack, successors);
      color := color[node := Black];
      return Ok;
    }
  }

  lemma ExtendWalk(edges: seq<Edge>, p: seq<string>, v: string)
    requires IsWalk(edges, p) && HasEdge(edges, p[|p| - 1], v)
    ensures IsWalk(edges, p + [v])
  {
    forall i | 0 <= i < |p| ensures HasEdge(edges, (p + [v])[i], (p + [v])[i + 1]) {
      if i < |p| - 1 {
        assert HasEdge(edges, p[i], p[i + 1]);
      }
    }
  }

  lemma EnterNode(edges: seq<Edge>, color: map<string, Color>, node: string, stack: seq<string>)
    requires BlackDone(edges, color) && node in color && color[node] == White
    requires Colored(color, Gray) == Elements(stack)
    ensures BlackDone(edges, color[node := Gray])
    ensures Colored(color[node := Gray], Gray) == Elements(stack + [node])
    ensures Colored(color[node := Gray], White) < Colored(color, White)
    ensures Colored(color[node := Gray], Black) == Colored(color, Black)
  {
    assert Elements(stack + [node]) == Elements(stack) + {node};
    assert node in Colored(color, White) && node !in Colored(color[node := Gray], White);
  }

  lemma {:induction false} WalkStaysBlack(edges: seq<Edge>, color: map<string, Color>, p: seq<string>, i: nat)
    requires BlackClosed(edges, color) && IsWalk(edges, p)
    requires p[0] in color && color[p[0]] == Black && i < |p|
    ensures p[i] in color && color[p[i]] == Black
  {
    if i == 0 {
    } else {
      WalkStaysBlack(edges, color, p, i - 1);
      assert HasEdge(edges, p[i - 1], p[i - 1 + 1]);
    }
  }

  /** A node whose successors are all black is on no cycle unless it is black itself. */
  lemma NoCycleThroughBlack(edges: seq<Edge>, color: map<string, Color>, node: string)
    requires BlackClosed(edges, color) && OnCycle(edges, node)
    requires forall v :: HasEdge(edges, node, v) ==> v in color && color[v] == Black
    ensures node in color && color[node] == Black
  {
    var p :| |p| >= 2 && IsWalkFromTo(edges, p, node, node);
    assert HasEdge(edges, p[0], p[0 + 1]);
    var q := p[1..];
    forall i | 0 <= i < |q| - 1 ensures HasEdge(edges, q[i], q[i + 1]) {
      assert HasEdge(edges, p[i + 1], p[i + 1 + 1]);
    }
    WalkStaysBlack(edges, color, q, |q| - 1);
  }

  /** A gray node whose successors are all black is on no cycle, so it may turn black. */
  lemma LeaveNode(edges: seq<Edge>, color: map<string, Color>, node: string, stack: seq<string>,
        successors: seq<string>)
    requires BlackDone(edges, color)
    requires Colored(color, Gray) == Elements(stack + [node]) && node !in stack
    requires Elements(successors) <= Colored(color, Black)
    requires forall v :: HasEdge(edges, node, v) ==> v in successors
    ensures BlackDone(edges, color[node := Black])
    ensures Colored(color[node := Black], Gray) == Elements(stack)
    ensures Colored(color[node := Black], White) == Colored(color, White)
    ensures Colored(color[node := Black], Black) == Colored(color, Black) + {node}
  {
    assert Elements(stack + [node]) == Elements(stack) + {node};
    assert node in Colored(color, Gray);
    forall v | HasEdge(edges, node, v) ensures v in color && color[v] == Black {
      assert v in Elements(successors);
    }
    if OnCycle(edges, node) {
      NoCycleThroughBlack(edges, color, node);
    }
    forall v | v in color && color[v] == Gray ensures v in Elements(stack) || v == node {
      assert v in Colored(color, Gray);
    }
  }

  /** An edge from the end of a walk back into it closes a cycle. */
  lemma CloseCycle(edges: seq<Edge>, p: seq<string>, v: string)
    requires IsWalk(edges, p) && v in p && HasEdge(edges, p[|p| - 1], v)
    ensures OnCycle(edges, v)
  {
    var i :| 0 <= i < |p| && p[i] == v;
    var q := p[i..] + [v];
    forall j | 0 <= j < |q| - 1 ensures HasEdge(edges, q[j], q[j + 1]) {
      if j < |q| - 2 {
        assert HasEdge(edges, p[i + j], p[i + j + 1]);
      }
    }
    assert IsWalkFromTo(edges, q, v, v);
  }

  lemma CycleNodeHasEdge(edges: seq<Edge>, v: string) returns (w: string)
    requires OnCycle(edges, v)
    ensures HasEdge(edges, v, w)
  {
    var p :| |p| >= 2 && IsWalkFromTo(edges, p, v, v);
    assert HasEdge(edges, p[0], p[0 + 1]);
    return p[1];
  }

  lemma AllBlackIsAcyclic(search: DepthFirst)
    requires search.Wired() && search.Valid()
    requires forall v :: v in search.nodes ==> search.color[v] == Black
    ensures Acyclic(search.edges)
  {
    forall v ensures !OnCycle(search.edges, v) {
      if OnCycle(search.edges, v) {
        var w := CycleNodeHasEdge(search.edges, v);
      }
    }
  }

  // ---------------------------------------------------------------- shape of accepted graphs

  /** In a finite acyclic graph every walk can be prolonged backwards to a node without predecessors. */
  lemma {:induction false} ExtendBack(nodes: map<string, NodeType>, edges: seq<Edge>, p: seq<string>)
        returns (q: seq<string>)
    requires Closed(nodes.Keys, edges) && Acyclic(edges)
    requires IsWalk(edges, p) && (forall i :: 0 <= i < |p| ==> p[i] in nodes)
    requires forall i, j :: 0 <= i < j < |p| ==> p[i] != p[j]
    ensures IsWalk(edges, q) && q[|q| - 1] == p[|p| - 1]
    ensures q[0] in nodes && !HasIncoming(edges, q[0])
    decreases |nodes| - |p|
  {
    DistinctFit(p, nodes.Keys);
    if !HasIncoming(edges, p[0]) {
      return p;
    }
    var k :| 0 <= k < |edges| && edges[k].toNode == p[0];
    var u := edges[k].fromNode;
    assert HasEdge(edges, u, p[0]);
    var longer := [u] + p;
    assert forall i :: 0 <= i < |p| - 1 ==> HasEdge(edges, p[i], p[i + 1]);
    assert IsWalk(edges, longer);
    if u in p {
      CycleThrough(edges, longer);
      assert false;
    }
    DistinctFit(longer, nodes.Keys);
    q := ExtendBack(nodes, edges, longer);
  }

  lemma {:induction false} ExtendForward(nodes: map<string, NodeType>, edges: seq<Edge>, p: seq<string>)
        returns (q: seq<string>)
    requires Closed(nodes.Keys, edges) && Acyclic(edges)
    requires IsWalk(edges, p) && (forall i :: 0 <= i < |p| ==> p[i] in nodes)
    requires forall i, j :: 0 <= i < j < |p| ==> p[i] != p[j]
    ensures IsWalk(edges, q) && q[0] == p[0]
    ensures q[|q| - 1] in nodes && !HasOutgoing(edges, q[|q| - 1])
    decreases |nodes| - |p|
  {
    DistinctFit(p, nodes.Keys);
    var last := p[|p| - 1];
    if !HasOutgoing(edges, last) {
      return p;
    }
    var k :| 0 <= k < |edges| && edges[k].fromNode == last;
    var v := edges[k].toNode;
    assert HasEdge(edges, last, v);
    if v in p {
      CloseCycle(edges, p, v);
      assert false;
    }
    var longer := p + [v];
    assert forall i :: 0 <= i < |p| - 1 ==> HasEdge(edges, p[i], p[i + 1]);
    assert IsWalk(edges, longer);
    DistinctFit(longer, nodes.Keys);
    q := ExtendForward(nodes, edges, longer);
  }

  /** A walk whose first node occurs again contains a cycle. */
  lemma CycleThrough(edges: seq<Edge>, p: seq<string>)
    requires IsWalk(edges, p) && |p| >= 2 && p[0] in p[1..]
    ensures OnCycle(edges, p[0])
  {
    var i :| 1 <= i < |p| && p[i] == p[0];
    assert IsWalkFromTo(edges, p[..i + 1], p[0], p[0]);
  }

  /** In an accepted graph with two or more nodes the only nodes without predecessors are sources
      and the only nodes without successors are sinks. */
  lemma EndsAreSourcesAndSinks(nodes: map<string, NodeType>, edges: seq<Edge>, v: string)
    requires WellFormed(nodes, edges) && |nodes| > 1 && v in nodes
    ensures nodes[v] == Source <==> !HasIncoming(edges, v)
    ensures nodes[v] == Sink <==> !HasOutgoing(edges, v)
  {
    assert HasIncoming(edges, v) || HasOutgoing(edges, v);
    assert DegreesOk(edges, v, nodes[v]);
  }

  /** Every node of an accepted graph with at least two nodes lies on a walk from a source to a
      sink: a source feeds it and it drains into a sink. */
  lemma AcceptedGraphFlows(nodes: map<string, NodeType>, edges: seq<Edge>, v: string)
    returns (source: string, sink: string, through: seq<string>)
    requires Closed(nodes.Keys, edges) && WellFormed(nodes, edges) && |nodes| > 1 && v in nodes
    ensures source in nodes && nodes[source] == Source && Reaches(edges, source, v)
    ensures sink in nodes && nodes[sink] == Sink && Reaches(edges, v, sink)
    ensures IsWalkFromTo(edges, through, source, sink) && v in through && |through| >= 2
  {
    var back := ExtendBack(nodes, edges, [v]);
    var forth := ExtendForward(nodes, edges, [v]);
    source, sink := back[0], forth[|forth| - 1];
    EndsAreSourcesAndSinks(nodes, edges, source);
    EndsAreSourcesAndSinks(nodes, edges, sink);
    assert IsWalkFromTo(edges, back, source, v) && IsWalkFromTo(edges, forth, v, sink);
    through := back + forth[1..];
    JoinWalks(edges, back, forth);
    assert through[|back| - 1] == v;
  }

  lemma JoinWalks(edges: seq<Edge>, p: seq<string>, q: seq<string>)
    requires IsWalk(edges, p) && IsWalk(edges, q) && p[|p| - 1] == q[0]
    ensures IsWalkFromTo(edges, p + q[1..], p[0], q[|q| - 1])
  {
    var r := p + q[1..];
    forall i | 0 <= i < |r| - 1 ensures HasEdge(edges, r[i], r[i + 1]) {
      if i < |p| - 1 {
        assert HasEdge(edges, p[i], p[i + 1]);
      } else {
        var j := i - (|p| - 1);
        assert HasEdge(edges, q[j], q[j + 1]);
      }
    }
  }

  /** A graph on one node is accepted only without edges, as a lone source or sink. */
  lemma AcceptedSingleton(nodes: map<string, NodeType>, edges: seq<Edge>, v: string)
    requires Closed(nodes.Keys, edges) && nodes.Keys == {v}
    ensures WellFormed(nodes, edges) <==> edges == [] && nodes[v] != Operator
  {
    assert |nodes| == |nodes.Keys| == 1;
    if edges != [] {
      assert edges[0].fromNode in nodes.Keys && edges[0].toNode in nodes.Keys;
      assert HasEdge(edges, v, v);
      assert IsWalkFromTo(edges, [v, v], v, v);
      assert OnCycle(edges, v);
    } else {
      forall u ensures !OnCycle(edges, u) {
        if OnCycle(edges, u) {
          var w := CycleNodeHasEdge(edges, u);
        }
      }
    }
  }
}
