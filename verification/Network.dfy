/** The whole graph: nodes joined by the buffers that GraphBuilder.Build creates, one per edge
    (internal/engine/builder.go), running as interleaved steps of their goroutines. Buffers are not
    bounded here, so every run under backpressure is one of these runs. */
module Network {
  import opened Messages
  import opened Graphs
  import opened NodeRuntime

  // ---------------------------------------------------------------- wiring

  /** How many edges leave, and enter, a node. */
  function OutDegree(edges: seq<Edge>, v: string): nat {
    if edges == [] then 0
    else OutDegree(edges[..|edges| - 1], v) + (if edges[|edges| - 1].fromNode == v then 1 else 0)
  }

  function InDegree(edges: seq<Edge>, v: string): nat {
    if edges == [] then 0
    else InDegree(edges[..|edges| - 1], v) + (if edges[|edges| - 1].toNode == v then 1 else 0)
  }

  /** The position of edge `k` among its sender's outputs and among its receiver's inputs. */
  function OutPos(edges: seq<Edge>, k: nat): nat
    requires k < |edges|
  {
    OutDegree(edges[..k], edges[k].fromNode)
  }

  function InPos(edges: seq<Edge>, k: nat): nat
    requires k < |edges|
  {
    InDegree(edges[..k], edges[k].toNode)
  }

  lemma {:induction false} PrefixDegree(edges: seq<Edge>, k: nat, v: string)
    requires k <= |edges|
    ensures OutDegree(edges[..k], v) <= OutDegree(edges, v)
    ensures InDegree(edges[..k], v) <= InDegree(edges, v)
    ensures k < |edges| && edges[k].fromNode == v ==> OutDegree(edges[..k], v) < OutDegree(edges, v)
    ensures k < |edges| && edges[k].toNode == v ==> InDegree(edges[..k], v) < InDegree(edges, v)
  {
    if k < |edges| {
      var front := edges[..|edges| - 1];
      assert front[..k] == edges[..k];
      PrefixDegree(front, k, v);
    } else {
      assert edges[..k] == edges;
    }
  }

  lemma PositionsInRange(edges: seq<Edge>, k: nat)
    requires k < |edges|
    ensures OutPos(edges, k) < OutDegree(edges, edges[k].fromNode)
    ensures InPos(edges, k) < InDegree(edges, edges[k].toNode)
  {
    PrefixDegree(edges, k, edges[k].fromNode);
    PrefixDegree(edges, k, edges[k].toNode);
  }

  /** Two edges into one node arrive at different inputs, two edges out of one node at different outputs. */
  lemma PositionsDiffer(edges: seq<Edge>, j: nat, k: nat)
    requires j < k < |edges|
    ensures edges[j].toNode == edges[k].toNode ==> InPos(edges, j) < InPos(edges, k)
    ensures edges[j].fromNode == edges[k].fromNode ==> OutPos(edges, j) < OutPos(edges, k)
  {
    assert edges[..k][..j] == edges[..j];
    PrefixDegree(edges[..k], j, edges[k].toNode);
    PrefixDegree(edges[..k], j, edges[k].fromNode);
  }

  /** Every input of a node is fed by one of the edges. */
  lemma {:induction false} InputEdge(edges: seq<Edge>, v: string, i: nat) returns (k: nat)
    requires i < InDegree(edges, v)
    ensures k < |edges| && edges[k].toNode == v && InPos(edges, k) == i
  {
    var front := edges[..|edges| - 1];
    if i < InDegree(front, v) {
      k := InputEdge(front, v, i);
      assert front[..k] == edges[..k];
    } else {
      k := |edges| - 1;
    }
  }

  lemma {:induction false} OutputEdge(edges: seq<Edge>, v: string, j: nat) returns (k: nat)
    requires j < OutDegree(edges, v)
    ensures k < |edges| && edges[k].fromNode == v && OutPos(edges, k) == j
  {
    var front := edges[..|edges| - 1];
    if j < OutDegree(front, v) {
      k := OutputEdge(front, v, j);
      assert front[..k] == edges[..k];
    } else {
      k := |edges| - 1;
    }
  }

  function Lookup(m: map<string, seq<nat>>, v: string): seq<nat> {
    if v in m then m[v] else []
  }

  predicate PlacedAt(s: seq<nat>, pos: nat, k: nat) {
    pos < |s| && s[pos] == k
  }

  /** The list of a node's inputs holds exactly its incoming edges among the first `n`, each at its position. */
  ghost predicate PlacedIn(edges: seq<Edge>, n: nat, inputs: map<string, seq<nat>>)
    requires n <= |edges|
  {
    && (forall v :: |Lookup(inputs, v)| == InDegree(edges[..n], v))
    && (forall k: nat :: k < n ==> PlacedAt(Lookup(inputs, edges[k].toNode), InPos(edges, k), k))
  }

  ghost predicate PlacedOut(edges: seq<Edge>, n: nat, outputs: map<string, seq<nat>>)
    requires n <= |edges|
  {
    && (forall v :: |Lookup(outputs, v)| == OutDegree(edges[..n], v))
    && (forall k: nat :: k < n ==> PlacedAt(Lookup(outputs, edges[k].fromNode), OutPos(edges, k), k))
  }

  /** The edges among the first `n` that leave a node by a port. */
  function PortEdges(edges: seq<Edge>, n: nat, v: string, port: string): seq<nat>
    requires n <= |edges|
  {
    if n == 0 then []
    else if edges[n - 1].fromNode == v && edges[n - 1].fromPort == port then PortEdges(edges, n - 1, v, port) + [n - 1]
    else PortEdges(edges, n - 1, v, port)
  }

  /** All of them, once each, in order. */
  lemma {:induction false} PortEdgesMeaning(edges: seq<Edge>, n: nat, v: string, port: string)
    requires n <= |edges|
    ensures forall k: nat :: k in PortEdges(edges, n, v, port) <==>
              k < n && edges[k].fromNode == v && edges[k].fromPort == port
    ensures forall a, b :: 0 <= a < b < |PortEdges(edges, n, v, port)| ==>
              PortEdges(edges, n, v, port)[a] < PortEdges(edges, n, v, port)[b]
  {
    if n == 0 {
    } else {
      PortEdgesMeaning(edges, n - 1, v, port);
      var front := PortEdges(edges, n - 1, v, port);
      assert forall a :: 0 <= a < |front| ==> front[a] in front;
    }
  }

  type Ports = map<string, map<string, seq<nat>>>

  function PortsOf(ports: Ports, v: string): map<string, seq<nat>> {
    if v in ports then ports[v] else map[]
  }

  /** The list for a port of a node holds exactly the edges that leave the node by the port. */
  ghost predicate PlacedPorts(edges: seq<Edge>, n: nat, ports: Ports)
    requires n <= |edges|
  {
    forall v, port :: Lookup(PortsOf(ports, v), port) == PortEdges(edges, n, v, port)
  }

  /** Build's wiring loop: buffer `k` belongs to edge `k`. It becomes output `OutPos(k)` of the edge's
      sender, input `InPos(k)` of its receiver, and the last entry of the sender's port; nothing else is wired. */
  method Wire(edges: seq<Edge>)
    returns (inputs: map<string, seq<nat>>, outputs: map<string, seq<nat>>, ports: Ports)
    ensures PlacedIn(edges, |edges|, inputs) && PlacedOut(edges, |edges|, outputs)
    ensures PlacedPorts(edges, |edges|, ports)
  {
    inputs, outputs, ports := map[], map[], map[];
    for n := 0 to |edges|
      invariant PlacedIn(edges, n, inputs) && PlacedOut(edges, n, outputs) && PlacedPorts(edges, n, ports)
    {
      var e := edges[n];
      var mine := PortsOf(ports, e.fromNode);
      PlaceIn(edges, n, inputs);
      PlaceOut(edges, n, outputs);
      PlacePort(edges, n, ports);
      outputs := outputs[e.fromNode := Lookup(outputs, e.fromNode) + [n]];
      assert PlacedOut(edges, n + 1, outputs);
      inputs := inputs[e.toNode := Lookup(inputs, e.toNode) + [n]];
      assert PlacedIn(edges, n + 1, inputs);
      ports := ports[e.fromNode := mine[e.fromPort := Lookup(mine, e.fromPort) + [n]]];
      assert PlacedPorts(edges, n + 1, ports);
    }
  }

  lemma PlacePort(edges: seq<Edge>, n: nat, ports: Ports)
    requires n < |edges| && PlacedPorts(edges, n, ports)
    ensures var e, mine := edges[n], PortsOf(ports, edges[n].fromNode);
            PlacedPorts(edges, n + 1, ports[e.fromNode := mine[e.fromPort := Lookup(mine, e.fromPort) + [n]]])
  {
    var e, mine := edges[n], PortsOf(ports, edges[n].fromNode);
    var more, next := ports[e.fromNode := mine[e.fromPort := Lookup(mine, e.fromPort) + [n]]], n + 1;
    forall v, port ensures Lookup(PortsOf(more, v), port) == PortEdges(edges, next, v, port) {
      assert Lookup(PortsOf(ports, v), port) == PortEdges(edges, n, v, port);
    }
  }

  lemma PlaceIn(edges: seq<Edge>, n: nat, inputs: map<string, seq<nat>>)
    requires n < |edges| && PlacedIn(edges, n, inputs)
    ensures PlacedIn(edges, n + 1, inputs[edges[n].toNode := Lookup(inputs, edges[n].toNode) + [n]])
  {
    var to := edges[n].toNode;
    var more := inputs[to := Lookup(inputs, to) + [n]];
    assert edges[..n + 1][..n] == edges[..n];
    forall v ensures |Lookup(more, v)| == InDegree(edges[..n + 1], v) {
      assert |Lookup(inputs, v)| == InDegree(edges[..n], v);
    }
    forall k: nat | k < n + 1 ensures PlacedAt(Lookup(more, edges[k].toNode), InPos(edges, k), k) {
      if k < n {
        assert PlacedAt(Lookup(inputs, edges[k].toNode), InPos(edges, k), k);
      }
    }
  }

  lemma PlaceOut(edges: seq<Edge>, n: nat, outputs: map<string, seq<nat>>)
    requires n < |edges| && PlacedOut(edges, n, outputs)
    ensures PlacedOut(edges, n + 1, outputs[edges[n].fromNode := Lookup(outputs, edges[n].fromNode) + [n]])
  {
    var from := edges[n].fromNode;
    var more := outputs[from := Lookup(outputs, from) + [n]];
    assert edges[..n + 1][..n] == edges[..n];
    forall v ensures |Lookup(more, v)| == OutDegree(edges[..n + 1], v) {
      assert |Lookup(outputs, v)| == OutDegree(edges[..n], v);
    }
    forall k: nat | k < n + 1 ensures PlacedAt(Lookup(more, edges[k].fromNode), OutPos(edges, k), k) {
      if k < n {
        assert PlacedAt(Lookup(outputs, edges[k].fromNode), OutPos(edges, k), k);
      }
    }
  }

  // ---------------------------------------------------------------- the machine

  datatype System = System(edges: seq<Edge>, nodes: set<string>, pooled: set<string>)

  ghost predicate Wired(g: System) {
    Closed(g.nodes, g.edges)
  }

  lemma {:induction false} DegreeMeaning(edges: seq<Edge>, v: string)
    ensures InDegree(edges, v) > 0 <==> HasIncoming(edges, v)
    ensures OutDegree(edges, v) > 0 <==> HasOutgoing(edges, v)
  {
    if edges == [] {
    } else {
      var front, last := edges[..|edges| - 1], edges[|edges| - 1];
      DegreeMeaning(front, v);
      SnocDegrees(front, last);
      assert edges == front + [last];
    }
  }

  /** The graphs that Validate accepts are wired, and the nodes without inputs are exactly their sources. */
  lemma AcceptedIsWired(nodes: map<string, NodeType>, edges: seq<Edge>, pooled: set<string>, v: string)
    requires Closed(nodes.Keys, edges) && WellFormed(nodes, edges) && |nodes| > 1 && v in nodes
    ensures Wired(System(edges, nodes.Keys, pooled))
    ensures InDegree(edges, v) == 0 <==> nodes[v] == Source
    ensures OutDegree(edges, v) == 0 <==> nodes[v] == Sink
  {
    DegreeMeaning(edges, v);
    EndsAreSourcesAndSinks(nodes, edges, v);
  }

  function ConfigOf(g: System, v: string): Config {
    Config(InDegree(g.edges, v), OutDegree(g.edges, v), v in g.pooled)
  }

  type Net = map<string, Local>

  /** A merger moves one message along an edge, or a node takes one of its own steps. */
  datatype NetStep = Move(edge: nat) | At(node: string, step: Step)

  function Start(g: System): Net {
    map v | v in g.nodes :: Initial(ConfigOf(g, v))
  }

  /** Everything sent on an edge, and everything its receiver's merger has taken from it. */
  ghost function Sent(g: System, net: Net, k: nat): seq<Message>
    requires k < |g.edges| && NetShape(g, net)
  {
    PositionsInRange(g.edges, k);
    net[g.edges[k].fromNode].outs[OutPos(g.edges, k)]
  }

  ghost function Taken(g: System, net: Net, k: nat): seq<Message>
    requires k < |g.edges| && NetShape(g, net)
  {
    PositionsInRange(g.edges, k);
    net[g.edges[k].toNode].ins[InPos(g.edges, k)]
  }

  ghost predicate NetShape(g: System, net: Net) {
    && Wired(g) && net.Keys == g.nodes
    && forall v :: v in net ==> SizeOk(ConfigOf(g, v), net[v])
  }

  ghost predicate SizeOk(c: Config, l: Local) {
    |l.ins| == c.inputs && |l.outs| == c.outputs
  }

  /** The step a node takes when a message moves along edge `k`. */
  ghost function MoveStep(g: System, net: Net, k: nat): Step
    requires k < |g.edges| && NetShape(g, net) && |Taken(g, net, k)| < |Sent(g, net, k)|
  {
    Merge(InPos(g.edges, k), Sent(g, net, k)[|Taken(g, net, k)|])
  }

  ghost predicate StepEnabled(g: System, net: Net, s: NetStep)
    requires NetShape(g, net)
  {
    match s
    case Move(k) => k < |g.edges| && |Taken(g, net, k)| < |Sent(g, net, k)|
    case At(v, a) => v in net && !a.Merge? && Enabled(ConfigOf(g, v), net[v], a)
  }

  ghost function Actor(g: System, net: Net, s: NetStep): string
    requires NetShape(g, net) && StepEnabled(g, net, s)
  {
    match s
    case Move(k) => g.edges[k].toNode
    case At(v, _) => v
  }

  ghost function Action(g: System, net: Net, s: NetStep): Step
    requires NetShape(g, net) && StepEnabled(g, net, s)
    ensures Enabled(ConfigOf(g, Actor(g, net, s)), net[Actor(g, net, s)], Action(g, net, s))
  {
    match s
    case Move(k) => PositionsInRange(g.edges, k); MoveStep(g, net, k)
    case At(_, a) => a
  }

  ghost function Next(g: System, net: Net, s: NetStep): Net
    requires NetShape(g, net) && StepEnabled(g, net, s)
  {
    var v := Actor(g, net, s);
    net[v := Apply(ConfigOf(g, v), net[v], Action(g, net, s))]
  }

  /** Steps preserve the number of inputs and outputs, so runs never get stuck on it. */
  lemma NextShape(g: System, net: Net, s: NetStep)
    requires NetShape(g, net) && StepEnabled(g, net, s)
    ensures NetShape(g, Next(g, net, s))
  {
  }

  lemma StartShape(g: System)
    requires Wired(g)
    ensures NetShape(g, Start(g))
  {
  }

  /** A run: steps in any interleaving. A step that is not enabled does nothing. */
  datatype Run = Begin | Then(before: Run, step: NetStep)

  ghost function Final(g: System, r: Run): (net: Net)
    requires Wired(g)
    ensures NetShape(g, net)
  {
    match r
    case Begin => StartShape(g); Start(g)
    case Then(q, s) =>
      var net := Final(g, q);
      if StepEnabled(g, net, s) then NextShape(g, net, s); Next(g, net, s) else net
  }

  // ---------------------------------------------------------------- every node

  /** What holds of every node in every reachable state. The output clauses are for nodes with inputs:
      a source sends what it likes. */
  ghost predicate NodeOk(c: Config, l: Local) {
    && ShapeOk(c, l)
    && AlignOk(c, l.intake, l.agenda, l.record)
    && SnapshotsOk(c, l.intake.fed, l.agenda, l.record)
    && HolderOk(c, l.intake)
    && InputsOk(c, l)
    && (c.inputs > 0 ==> OutputsOk(c, l))
  }

  ghost predicate InputsOk(c: Config, l: Local)
    requires |l.ins| == c.inputs
  {
    forall i: nat :: i < c.inputs ==> InputOk(l.intake, l.ins[i], i)
  }

  ghost predicate OutputsOk(c: Config, l: Local)
    requires |l.outs| == c.outputs
  {
    forall j: nat :: j < c.outputs ==>
      && OutputOk(l.outs[j], Promised(l, j), l.record.snapshots, j)
      && MarksOk(c, l.intake, l.agenda.advance, Promised(l, j))
  }

  lemma NodeInitial(c: Config)
    ensures NodeOk(c, Initial(c))
  {
  }

  lemma OutputsStep(c: Config, l: Local, s: Step)
    requires ShapeOk(c, l) && Enabled(c, l, s) && c.inputs > 0 && OutputsOk(c, l) && HolderOk(c, l.intake)
    ensures |Apply(c, l, s).outs| == c.outputs && OutputsOk(c, Apply(c, l, s))
  {
    var l' := Apply(c, l, s);
    forall j: nat | j < c.outputs
      ensures OutputOk(l'.outs[j], Promised(l', j), l'.record.snapshots, j)
      ensures MarksOk(c, l'.intake, l'.agenda.advance, Promised(l', j))
    {
      assert OutputOk(l.outs[j], Promised(l, j), l.record.snapshots, j);
      OutputStep(c, l, s, j);
      WatermarkStep(c, l, s, j);
    }
  }

  lemma InputsStep(c: Config, l: Local, s: Step)
    requires |l.ins| == c.inputs && Enabled(c, l, s) && InputsOk(c, l)
    ensures |Apply(c, l, s).ins| == c.inputs && InputsOk(c, Apply(c, l, s))
  {
    forall i: nat | i < c.inputs ensures InputOk(Apply(c, l, s).intake, Apply(c, l, s).ins[i], i) {
      assert InputOk(l.intake, l.ins[i], i);
      InputStep(c, l, s, i);
    }
  }

  lemma NodeStep(c: Config, l: Local, s: Step)
    requires NodeOk(c, l) && Enabled(c, l, s)
    ensures NodeOk(c, Apply(c, l, s))
  {
    ShapeStep(c, l, s);
    AlignStep(c, l, s);
    SnapshotsStep(c, l, s);
    HolderStep(c, l, s);
    InputsStep(c, l, s);
    if c.inputs > 0 {
      OutputsStep(c, l, s);
    }
  }

  lemma {:induction false} EveryNode(g: System, r: Run, v: string)
    requires Wired(g) && v in g.nodes
    ensures NodeOk(ConfigOf(g, v), Final(g, r)[v])
  {
    match r {
      case Begin => NodeInitial(ConfigOf(g, v));
      case Then(q, s) =>
        EveryNode(g, q, v);
        if StepEnabled(g, Final(g, q), s) {
          NodeNext(g, Final(g, q), s, v);
        }
    }
  }

  lemma NodeNext(g: System, net: Net, s: NetStep, v: string)
    requires NetShape(g, net) && StepEnabled(g, net, s) && v in net && NodeOk(ConfigOf(g, v), net[v])
    ensures v in Next(g, net, s) && NodeOk(ConfigOf(g, v), Next(g, net, s)[v])
  {
    if Actor(g, net, s) == v {
      NodeStep(ConfigOf(g, v), net[v], Action(g, net, s));
    }
  }

  // ---------------------------------------------------------------- every edge

  /** A step only lengthens what was sent, and takes at most the next message of one input. */
  lemma ApplyEffects(c: Config, l: Local, s: Step)
    requires SizeOk(c, l) && Enabled(c, l, s)
    ensures SizeOk(c, Apply(c, l, s))
    ensures forall j :: 0 <= j < c.outputs ==> l.outs[j] <= Apply(c, l, s).outs[j]
    ensures !s.Merge? ==> Apply(c, l, s).ins == l.ins
    ensures s.Merge? ==> Apply(c, l, s).ins == Push(l.ins, s.input, s.msg)
  {
  }

  /** An edge is a queue: its receiver has taken a prefix of what was sent. */
  ghost predicate EdgeOk(g: System, net: Net, k: nat) {
    k < |g.edges| && NetShape(g, net) && Taken(g, net, k) <= Sent(g, net, k)
  }

  lemma EdgeMove(g: System, net: Net, e: nat, k: nat)
    requires EdgeOk(g, net, k) && StepEnabled(g, net, Move(e)) && NetShape(g, Next(g, net, Move(e)))
    ensures EdgeOk(g, Next(g, net, Move(e)), k) && Sent(g, Next(g, net, Move(e)), k) == Sent(g, net, k)
  {
    PositionsInRange(g.edges, k);
    PositionsInRange(g.edges, e);
    if e < k {
      PositionsDiffer(g.edges, e, k);
    } else if k < e {
      PositionsDiffer(g.edges, k, e);
    }
  }

  lemma EdgeAt(g: System, net: Net, v: string, a: Step, k: nat)
    requires EdgeOk(g, net, k) && StepEnabled(g, net, At(v, a)) && NetShape(g, Next(g, net, At(v, a)))
    ensures EdgeOk(g, Next(g, net, At(v, a)), k) && Sent(g, net, k) <= Sent(g, Next(g, net, At(v, a)), k)
    ensures Taken(g, Next(g, net, At(v, a)), k) == Taken(g, net, k)
  {
    PositionsInRange(g.edges, k);
    ApplyEffects(ConfigOf(g, v), net[v], a);
  }

  lemma {:induction false} EveryEdge(g: System, r: Run, k: nat)
    requires Wired(g) && k < |g.edges|
    ensures EdgeOk(g, Final(g, r), k)
  {
    match r {
      case Begin => EdgeStart(g, k);
      case Then(q, s) =>
        EveryEdge(g, q, k);
        if StepEnabled(g, Final(g, q), s) {
          EdgeNext(g, Final(g, q), s, k);
        }
    }
  }

  lemma EdgeStart(g: System, k: nat)
    requires Wired(g) && k < |g.edges|
    ensures EdgeOk(g, Start(g), k)
  {
    StartShape(g);
    PositionsInRange(g.edges, k);
  }

  lemma EdgeNext(g: System, net: Net, s: NetStep, k: nat)
    requires EdgeOk(g, net, k) && StepEnabled(g, net, s)
    ensures EdgeOk(g, Next(g, net, s), k) && Sent(g, net, k) <= Sent(g, Next(g, net, s), k)
    ensures Taken(g, Next(g, net, s), k) <= Sent(g, net, k)
  {
    NextShape(g, net, s);
    match s {
      case Move(e) => EdgeMove(g, net, e, k);
      case At(v, a) => EdgeAt(g, net, v, a, k);
    }
  }
}
