/** What the nodes of a graph were given and did in a run, read off the steps of the run alone, and what has
    become of it in their states (internal/engine/runtime.go). */
module NodeHistories {
  import opened Collections
  import opened Messages
  import opened Codecs
  import opened Alignment
  import opened NodeRuntime
  import opened StopProtocol
  import opened Network
  import opened GraphRuns

  /** The steps that a node took, in order. */
  ghost function StepsOf(g: System, r: Network.Run, v: string): seq<Step>
    requires Wired(g)
  {
    match r
    case Begin => []
    case Then(q, s) =>
      var net := Final(g, q);
      if StepEnabled(g, net, s) && Actor(g, net, s) == v then StepsOf(g, q, v) + [Action(g, net, s)]
      else StepsOf(g, q, v)
  }

  /** The bytes that the node's HandleCheckpoint gave, call after call. */
  function BytesGiven(steps: seq<Step>): seq<Bytes> {
    if steps == [] then []
    else if steps[|steps| - 1].TakeSnapshot? then BytesGiven(steps[..|steps| - 1]) + [steps[|steps| - 1].state]
    else BytesGiven(steps[..|steps| - 1])
  }

  /** What the node's operator emits in a step, each with its output. */
  function EmittedBy(s: Step): seq<Indexed> {
    match s
    case Process(emits) => emits
    case AdvanceWatermark(emits) => emits
    case FireTimers(emits) => emits
    case WorkerEmit(out, m) => [Indexed(out, m)]
    case _ => []
  }

  function EmittedIn(steps: seq<Step>): seq<Indexed> {
    if steps == [] then [] else EmittedIn(steps[..|steps| - 1]) + EmittedBy(steps[|steps| - 1])
  }

  lemma StepsSnoc(steps: seq<Step>, s: Step)
    ensures BytesGiven(steps + [s]) == if s.TakeSnapshot? then BytesGiven(steps) + [s.state] else BytesGiven(steps)
    ensures EmittedIn(steps + [s]) == EmittedIn(steps) + EmittedBy(s)
  {
    assert (steps + [s])[..|steps|] == steps;
  }

  // ---------------------------------------------------------------- the bytes of snapshots

  function BytesOf(snaps: seq<Snapshot>): (bs: seq<Bytes>)
    ensures |bs| == |snaps| && forall k :: 0 <= k < |snaps| ==> bs[k] == snaps[k].state
  {
    seq(|snaps|, k requires 0 <= k < |snaps| => snaps[k].state)
  }

  lemma BytesStep(c: Config, l: Local, s: Step)
    requires Enabled(c, l, s)
    ensures BytesOf(Apply(c, l, s).record.snapshots) ==
            if s.TakeSnapshot? then BytesOf(l.record.snapshots) + [s.state] else BytesOf(l.record.snapshots)
  {
    if s.TakeSnapshot? {
      var before, after := l.record.snapshots, Apply(c, l, s).record.snapshots;
      assert |after| == |before| + 1 && after[..|before|] == before && after[|before|].state == s.state;
    }
  }

  /** A node's snapshots hold, in order, exactly the bytes that its HandleCheckpoint gave. */
  lemma {:induction false} SnapshotsHoldBytes(g: System, r: Network.Run, v: string)
    requires Wired(g) && v in g.nodes
    ensures BytesOf(Snapshots(g, r, v)) == BytesGiven(StepsOf(g, r, v))
  {
    match r {
      case Begin =>
      case Then(q, s) =>
        SnapshotsHoldBytes(g, q, v);
        var net := Final(g, q);
        if StepEnabled(g, net, s) && Actor(g, net, s) == v {
          BytesStep(ConfigOf(g, v), net[v], Action(g, net, s));
          StepsSnoc(StepsOf(g, q, v), Action(g, net, s));
        }
    }
  }

  // ---------------------------------------------------------------- what operators emit

  /** The data among some messages. */
  function DataOf(s: seq<Message>): seq<Message> {
    if s == [] then []
    else if s[|s| - 1].Data? then DataOf(s[..|s| - 1]) + [s[|s| - 1]]
    else DataOf(s[..|s| - 1])
  }

  lemma DataSnoc(s: seq<Message>, m: Message)
    ensures DataOf(s + [m]) == if m.Data? then DataOf(s) + [m] else DataOf(s)
  {
    assert (s + [m])[..|s|] == s;
  }

  lemma {:induction false} DataAppend(s: seq<Message>, u: seq<Message>)
    ensures DataOf(s + u) == DataOf(s) + DataOf(u)
  {
    if u == [] {
      Assoc(s, [], []);
    } else {
      var front, last := u[..|u| - 1], u[|u| - 1];
      DataAppend(s, front);
      SplitLast(u);
      Assoc(s, front, [last]);
      DataSnoc(s + front, last);
      DataSnoc(front, last);
      if last.Data? {
        Assoc(DataOf(s), DataOf(front), [last]);
      }
    }
  }

  lemma {:induction false} DataIsData(s: seq<Message>)
    requires AllData(s)
    ensures DataOf(s) == s
  {
    if s == [] {
    } else {
      SplitLast(s);
      DataIsData(s[..|s| - 1]);
    }
  }

  /** The data a step adds to an output is what the operator emits on it. */
  lemma AddedData(c: Config, l: Local, s: Step, j: nat)
    requires ShapeOk(c, l) && Enabled(c, l, s) && c.inputs > 0 && j < c.outputs
    ensures DataOf(Added(c, l, s, j)) == Stream(EmittedBy(s), j)
  {
    AddedShape(c, l, s, j);
    var x := Added(c, l, s, j);
    match s {
      case AdvanceWatermark(emits) =>
        SplitLast(x);
        DataSnoc(x[..|x| - 1], x[|x| - 1]);
        DataIsData(x[..|x| - 1]);
        assert x[..|x| - 1] == Stream(emits, j);
      case TakeSnapshot(_) => DataSnoc([], x[0]);
      case Drain => DataSnoc([], x[0]);
      case WorkerEmit(k, m) =>
        StreamSnoc([], Indexed(k, m), j);
        assert [] + [Indexed(k, m)] == [Indexed(k, m)] && [] + [m] == [m];
        DataIsData(x);
      case _ => DataIsData(x);
    }
  }

  /** The data that a node with inputs has put on an output, or is about to, is exactly what its operator has
      emitted there, in order. */
  lemma {:induction false} OutputsHoldEmissions(g: System, r: Network.Run, v: string, j: nat)
    requires Wired(g) && v in g.nodes && InDegree(g.edges, v) > 0 && j < OutDegree(g.edges, v)
    ensures j < |Final(g, r)[v].outs|
    ensures DataOf(Promised(Final(g, r)[v], j)) == Stream(EmittedIn(StepsOf(g, r, v)), j)
  {
    match r {
      case Begin =>
      case Then(q, s) =>
        OutputsHoldEmissions(g, q, v, j);
        var net := Final(g, q);
        if StepEnabled(g, net, s) && Actor(g, net, s) == v {
          EveryNode(g, q, v);
          EmissionStep(ConfigOf(g, v), net[v], Action(g, net, s), j, EmittedIn(StepsOf(g, q, v)));
          StepsSnoc(StepsOf(g, q, v), Action(g, net, s));
        }
    }
  }

  lemma EmissionStep(c: Config, l: Local, s: Step, j: nat, emitted: seq<Indexed>)
    requires ShapeOk(c, l) && Enabled(c, l, s) && c.inputs > 0 && j < c.outputs
    requires DataOf(Promised(l, j)) == Stream(emitted, j)
    ensures |Apply(c, l, s).outs| == c.outputs
    ensures DataOf(Promised(Apply(c, l, s), j)) == Stream(emitted + EmittedBy(s), j)
  {
    PromisedGrows(c, l, s, j);
    DataAppend(Promised(l, j), Added(c, l, s, j));
    AddedData(c, l, s, j);
    StreamAppend(emitted, EmittedBy(s), j);
  }

  // ---------------------------------------------------------------- nothing gets stuck

  /** The node has something to do. */
  predicate Busy(l: Local) {
    || l.intake.merged != [] || l.agenda.work != [] || l.agenda.barrier.Some? || l.agenda.advance.Some?
    || l.sends != [] || (l.phase.stopping && !l.phase.drained) || l.phase.inflight > 0
  }

  /** A step by which the node or its operator gets on with what is there. */
  predicate Internal(s: Step) {
    s.Take? || s.Process? || s.TakeSnapshot? || s.AdvanceWatermark? || s.Drain? || s.Send? || s.WorkerDone?
  }

  /** A node that has something to do can take a step. */
  lemma NeverStuck(c: Config, l: Local) returns (s: Step)
    requires ShapeOk(c, l) && Busy(l)
    ensures Internal(s) && Enabled(c, l, s)
  {
    if l.sends != [] {
      return Send;
    } else if l.phase.inflight > 0 {
      return WorkerDone;
    } else if l.phase.stopping && !l.phase.drained {
      return Drain;
    } else if l.agenda.work != [] {
      return Process([]);
    } else if l.agenda.barrier.Some? {
      return TakeSnapshot([]);
    } else if l.agenda.advance.Some? {
      return AdvanceWatermark([]);
    } else {
      return Take;
    }
  }

  lemma BusyMoves(g: System, net: Net, v: string)
    requires NetShape(g, net) && v in net && ShapeOk(ConfigOf(g, v), net[v])
    ensures Busy(net[v]) ==> exists s :: Internal(s) && StepEnabled(g, net, At(v, s))
  {
    if Busy(net[v]) {
      var s := NeverStuck(ConfigOf(g, v), net[v]);
      assert StepEnabled(g, net, At(v, s));
    }
  }

  /** No merger can move a message, and no node can get on with anything. */
  ghost predicate Settled(g: System, net: Net)
    requires NetShape(g, net)
  {
    && (forall k: nat :: !StepEnabled(g, net, Move(k)))
    && (forall v, s :: Internal(s) ==> !StepEnabled(g, net, At(v, s)))
  }

  lemma AllTaken(g: System, net: Net, k: nat)
    requires EdgeOk(g, net, k) && Settled(g, net)
    ensures Taken(g, net, k) == Sent(g, net, k)
  {
    assert !StepEnabled(g, net, Move(k));
  }

  lemma NobodyBusy(g: System, net: Net, v: string)
    requires NetShape(g, net) && Settled(g, net) && v in net && ShapeOk(ConfigOf(g, v), net[v])
    ensures !Busy(net[v])
  {
    BusyMoves(g, net, v);
  }

  /** A graph comes to rest only when all that was ever sent on an edge has been taken, and has been dispatched
      or is held back by an open alignment. */
  lemma SettledHasHandledAll(g: System, r: Network.Run, k: nat)
    requires Wired(g) && k < |g.edges| && Settled(g, Final(g, r))
    ensures var net, v, i := Final(g, r), g.edges[k].toNode, InPos(g.edges, k);
            && Taken(g, net, k) == Sent(g, net, k) && !Busy(net[v])
            && Stream(net[v].record.dispatched, i) + Stream(net[v].intake.aligner.held, i) == Payload(Sent(g, net, k))
  {
    var v := g.edges[k].toNode;
    PositionsInRange(g.edges, k);
    EveryEdge(g, r, k);
    AllTaken(g, Final(g, r), k);
    EveryNode(g, r, v);
    NobodyBusy(g, Final(g, r), v);
    RestDispatched(ConfigOf(g, v), Final(g, r)[v], InPos(g.edges, k));
  }

  lemma RestDispatched(c: Config, l: Local, i: nat)
    requires NodeOk(c, l) && !Busy(l) && i < c.inputs
    ensures Stream(l.record.dispatched, i) + Stream(l.intake.aligner.held, i) == Payload(l.ins[i])
  {
    assert InputOk(l.intake, l.ins[i], i);
    DispatchOrder(c, l.intake, l.agenda, l.record, l.ins[i], i);
    Assoc(Stream(l.intake.arrived, i), [], []);
    Assoc(Stream(l.intake.aligner.held, i), [], []);
  }
}
