/** What every run of the whole graph guarantees: consistent cuts along edges, orderly shutdown, and
    increasing watermarks. */
module GraphRuns {
  import opened Collections
  import opened Messages
  import opened Alignment
  import Watermarks
  import opened Graphs
  import opened NodeRuntime
  import opened StopProtocol
  import opened Network

  // ---------------------------------------------------------------- checkpoints

  ghost function Snapshots(g: System, r: Network.Run, v: string): seq<Snapshot>
    requires Wired(g) && v in g.nodes
  {
    Final(g, r)[v].record.snapshots
  }

  /** What node `v`'s aligner has been fed. */
  ghost function Fed(g: System, r: Network.Run, v: string): seq<Indexed>
    requires Wired(g) && v in g.nodes
  {
    Final(g, r)[v].intake.fed
  }

  /** One edge in isolation: `arrived` is what the receiver has taken off it, `promised` what the sender
      has sent or is about to send. */
  lemma EdgeCut(arrived: seq<Message>, sent: seq<Message>, promised: seq<Message>, snaps: seq<Snapshot>, j: nat, q: nat)
    requires arrived <= promised && OutputOk(sent, promised, snaps, j)
    requires |Barriers(Unwatermarked(arrived))| >= q + 1
    ensures q < |snaps| && j < |snaps[q].sentBefore| && snaps[q].sentBefore[j] <= sent
    ensures Cut(Unwatermarked(arrived), q + 1) == Payload(snaps[q].sentBefore[j])
    ensures Barriers(Unwatermarked(arrived))[q] == snaps[q].barrier
  {
    var rest := promised[|arrived|..];
    assert arrived + rest == promised;
    UnwatermarkedAppend(arrived, rest);
    CutStable(Unwatermarked(arrived), Unwatermarked(rest), q + 1);
    CutUnwatermarked(promised, q + 1);
    assert |Barriers(promised)| >= q + 1 && Barriers(Unwatermarked(arrived))[q] == Barriers(promised)[q];
    CutUnwatermarked(snaps[q].sentBefore[j], q + 1);
  }

  /** The consistent cut. On an edge between two nodes that both have inputs, whenever the receiver has
      taken its snapshot number `q`, the sender has taken its own, and what the receiver's snapshot has
      consumed of the edge is exactly what the sender had put on it before its snapshot, followed by
      the messages held back in that alignment. So the two agree if and only if nothing of the edge was
      held back. The premise is that the receiver's inputs did not repeat a barrier inside an alignment. */
  lemma ConsistentCut(g: System, r: Network.Run, k: nat, q: nat)
    requires Wired(g) && k < |g.edges| && InDegree(g.edges, g.edges[k].fromNode) > 0
    requires q < |Snapshots(g, r, g.edges[k].toNode)|
    requires NoRepeats(InDegree(g.edges, g.edges[k].toNode), Fed(g, r, g.edges[k].toNode))
    ensures var mine, theirs := Snapshots(g, r, g.edges[k].toNode), Snapshots(g, r, g.edges[k].fromNode);
            var i, j := InPos(g.edges, k), OutPos(g.edges, k);
            && q < |theirs| && j < |theirs[q].sentBefore| && theirs[q].sentBefore[j] <= Sent(g, Final(g, r), k)
            && Stream(mine[q].consumed, i) == Payload(theirs[q].sentBefore[j]) + Stream(mine[q].heldBack, i)
            && (Stream(mine[q].consumed, i) == Payload(theirs[q].sentBefore[j]) <==> Stream(mine[q].heldBack, i) == [])
            && |Barriers(Stream(Fed(g, r, g.edges[k].toNode), i))| > q
            && Barriers(Stream(Fed(g, r, g.edges[k].toNode), i))[q] == theirs[q].barrier
  {
    var u, v := g.edges[k].fromNode, g.edges[k].toNode;
    var i, j := InPos(g.edges, k), OutPos(g.edges, k);
    PositionsInRange(g.edges, k);
    EveryNode(g, r, u);
    EveryNode(g, r, v);
    EveryEdge(g, r, k);
    var sender, receiver := Final(g, r)[u], Final(g, r)[v];
    var arrived := Stream(receiver.intake.arrived, i);
    ReceiverSide(ConfigOf(g, v), receiver, i, q);
    SenderSide(ConfigOf(g, u), sender, j);
    assert arrived <= Taken(g, Final(g, r), k);
    assert arrived <= Promised(sender, j);
    EdgeCut(arrived, sender.outs[j], Promised(sender, j), sender.record.snapshots, j, q);
  }

  /** Across the edge, the receiver's snapshot number `q` is the cut at the edge's own barrier number `q`: it
      has consumed what was sent in front of that barrier, followed by what was held back. */
  ghost predicate CutFits(g: System, r: Network.Run, k: nat, q: nat)
    requires Wired(g)
  {
    && k < |g.edges| && q < |Snapshots(g, r, g.edges[k].toNode)|
    && var sent, i, mine := Sent(g, Final(g, r), k), InPos(g.edges, k), Snapshots(g, r, g.edges[k].toNode)[q];
       && q < |Barriers(sent)|
       && Stream(mine.consumed, i) == Unwatermarked(Cut(sent, q + 1)) + Stream(mine.heldBack, i)
  }

  /** The cut covers the whole graph, edges out of sources included. */
  lemma CutOnEveryEdge(g: System, r: Network.Run, k: nat, q: nat)
    requires Wired(g) && k < |g.edges| && q < |Snapshots(g, r, g.edges[k].toNode)|
    requires NoRepeats(InDegree(g.edges, g.edges[k].toNode), Fed(g, r, g.edges[k].toNode))
    ensures CutFits(g, r, k, q)
    ensures var v, i := g.edges[k].toNode, InPos(g.edges, k);
            && |Barriers(Stream(Fed(g, r, v), i))| > q
            && Barriers(Stream(Fed(g, r, v), i))[q] == Barriers(Sent(g, Final(g, r), k))[q]
  {
    var v, i, sent := g.edges[k].toNode, InPos(g.edges, k), Sent(g, Final(g, r), k);
    PositionsInRange(g.edges, k);
    EveryNode(g, r, v);
    EveryEdge(g, r, k);
    var receiver := Final(g, r)[v];
    ReceiverSide(ConfigOf(g, v), receiver, i, q);
    assert Stream(receiver.intake.arrived, i) <= Taken(g, Final(g, r), k);
    CutOfPrefix(Stream(receiver.intake.arrived, i), sent, q);
  }

  lemma CutOfPrefix(arrived: seq<Message>, sent: seq<Message>, q: nat)
    requires arrived <= sent && |Barriers(Unwatermarked(arrived))| >= q + 1
    ensures Cut(Unwatermarked(arrived), q + 1) == Unwatermarked(Cut(sent, q + 1))
    ensures |Barriers(sent)| > q && Barriers(Unwatermarked(arrived))[q] == Barriers(sent)[q]
  {
    CutUnwatermarked(arrived, q + 1);
    assert sent == arrived + sent[|arrived|..];
    CutStable(arrived, sent[|arrived|..], q + 1);
  }

  lemma ReceiverSide(c: Config, l: Local, i: nat, q: nat)
    requires NodeOk(c, l) && i < c.inputs && q < |l.record.snapshots| && NoRepeats(c.inputs, l.intake.fed)
    ensures Stream(l.intake.arrived, i) <= l.ins[i]
    ensures Stream(l.intake.fed, i) == Unwatermarked(Stream(l.intake.arrived, i))
    ensures |Barriers(Stream(l.intake.fed, i))| >= q + 1
    ensures var snap := l.record.snapshots[q];
            Stream(snap.consumed, i) == Cut(Stream(l.intake.fed, i), q + 1) + Stream(snap.heldBack, i)
  {
    assert InputOk(l.intake, l.ins[i], i);
    assert ConsumedOk(c, l.intake.fed, q, l.record.snapshots[q].consumed, l.record.snapshots[q].heldBack);
  }

  lemma SenderSide(c: Config, l: Local, j: nat)
    requires NodeOk(c, l) && c.inputs > 0 && j < c.outputs
    ensures OutputOk(l.outs[j], Promised(l, j), l.record.snapshots, j) && l.outs[j] <= Promised(l, j)
    ensures WatermarksIncrease(l.outs[j])
  {
    assert OutputOk(l.outs[j], Promised(l, j), l.record.snapshots, j);
    OutputMarks(c, l, j);
    assert forall a :: 0 <= a < |l.outs[j]| ==> Promised(l, j)[a] == l.outs[j][a];
  }

  lemma OutputMarks(c: Config, l: Local, j: nat)
    requires NodeOk(c, l) && c.inputs > 0 && j < c.outputs
    ensures MarksOk(c, l.intake, l.agenda.advance, Promised(l, j)) && WatermarksIncrease(Promised(l, j))
  {
    assert MarksOk(c, l.intake, l.agenda.advance, Promised(l, j));
    Watermarks.RunningMaximum(AtLeastOne(c.inputs), ReportsOf(l.intake.arrived));
    var marks, emitted := Marks(Promised(l, j)), HolderRun(c, l.intake).emitted;
    assert forall a :: 0 <= a < |marks| ==> marks[a] == emitted[a];
    IncreasingMarks(Promised(l, j));
  }

  /** Into a node with one input the cut is exact without any premise, and both snapshots are for the
      same barrier, hence the same epoch. */
  lemma ExactCutIntoSingleInput(g: System, r: Network.Run, k: nat, q: nat)
    requires Wired(g) && k < |g.edges| && InDegree(g.edges, g.edges[k].fromNode) > 0
    requires InDegree(g.edges, g.edges[k].toNode) == 1
    requires q < |Snapshots(g, r, g.edges[k].toNode)|
    ensures var mine, theirs := Snapshots(g, r, g.edges[k].toNode), Snapshots(g, r, g.edges[k].fromNode);
            && q < |theirs| && OutPos(g.edges, k) < |theirs[q].sentBefore|
            && mine[q].barrier == theirs[q].barrier
            && Stream(mine[q].consumed, 0) == Payload(theirs[q].sentBefore[OutPos(g.edges, k)])
  {
    var v := g.edges[k].toNode;
    PositionsInRange(g.edges, k);
    EveryNode(g, r, v);
    SingleInputNode(ConfigOf(g, v), Final(g, r)[v], q);
    ConsistentCut(g, r, k, q);
  }

  lemma SingleInputNode(c: Config, l: Local, q: nat)
    requires NodeOk(c, l) && c.inputs == 1 && q < |l.record.snapshots|
    ensures NoRepeats(1, l.intake.fed) && Stream(l.record.snapshots[q].heldBack, 0) == []
    ensures q < |Barriers(Stream(l.intake.fed, 0))|
    ensures l.record.snapshots[q].barrier == Barriers(Stream(l.intake.fed, 0))[q]
  {
    SingleInput(l.intake.fed);
    assert BarriersOf(l.record.snapshots)[q] == l.record.snapshots[q].barrier;
  }

  // ---------------------------------------------------------------- watermarks

  /** The watermarks on every edge out of a node with inputs strictly increase, whatever sources send. */
  lemma WatermarksStrictlyIncrease(g: System, r: Network.Run, k: nat)
    requires Wired(g) && k < |g.edges| && InDegree(g.edges, g.edges[k].fromNode) > 0
    ensures WatermarksIncrease(Sent(g, Final(g, r), k))
  {
    PositionsInRange(g.edges, k);
    EveryNode(g, r, g.edges[k].fromNode);
    SenderSide(ConfigOf(g, g.edges[k].fromNode), Final(g, r)[g.edges[k].fromNode], OutPos(g.edges, k));
  }

  /** The watermarks on every edge out of a node with inputs are exactly those that the reports on the node's
      inputs call for, each sent or about to be, in order. The reports are the watermarks that the loop has
      taken; those of one input are the watermarks on its edge, in order. */
  lemma WatermarksFollowReports(g: System, r: Network.Run, k: nat)
    requires Wired(g) && k < |g.edges| && InDegree(g.edges, g.edges[k].fromNode) > 0
    ensures var u, n := g.edges[k].fromNode, InDegree(g.edges, g.edges[k].fromNode);
            var l := Final(g, r)[u];
            && Marks(PromisedOn(g, Final(g, r), k)) + MaybeMark(l.agenda.advance) ==
               Watermarks.Reference(n, ReportsOf(l.intake.arrived)).watermarks
            && Marks(Sent(g, Final(g, r), k)) <= Marks(PromisedOn(g, Final(g, r), k))
            && forall i: nat :: i < n ==>
                 && ReportsFrom(ReportsOf(l.intake.arrived), i) == Marks(Stream(l.intake.arrived, i))
                 && i < |l.ins| && Stream(l.intake.arrived, i) + Stream(l.intake.merged, i) == l.ins[i]
  {
    var u := g.edges[k].fromNode;
    var c, l, j := ConfigOf(g, u), Final(g, r)[u], OutPos(g.edges, k);
    PositionsInRange(g.edges, k);
    EveryNode(g, r, u);
    OutputMarks(c, l, j);
    Watermarks.EmitsReference(c.inputs, ReportsOf(l.intake.arrived));
    MarksAppend(l.outs[j], Stream(l.sends, j));
    forall i: nat | i < c.inputs
      ensures ReportsFrom(ReportsOf(l.intake.arrived), i) == Marks(Stream(l.intake.arrived, i))
      ensures Stream(l.intake.arrived, i) + Stream(l.intake.merged, i) == l.ins[i]
    {
      ReportsAreDelivered(l.intake.arrived, i);
      assert InputOk(l.intake, l.ins[i], i);
    }
  }

  // ---------------------------------------------------------------- shutdown

  /** On every edge out of a source a stop, if present, is last. */
  ghost predicate SourcesStopLast(g: System, net: Net)
    requires NetShape(g, net)
  {
    forall k: nat :: k < |g.edges| && InDegree(g.edges, g.edges[k].fromNode) == 0 ==> StopLast(Sent(g, net, k))
  }

  ghost predicate AllStopLast(g: System, net: Net)
    requires NetShape(g, net)
  {
    forall k: nat :: k < |g.edges| ==> StopLast(Sent(g, net, k))
  }

  ghost predicate NodeStops(g: System, net: Net, v: string)
    requires NetShape(g, net)
  {
    v in net && (InDegree(g.edges, v) > 0 ==> StopOk(ConfigOf(g, v), net[v]))
  }

  lemma StopLastPrefix(s: seq<Message>, u: seq<Message>)
    requires s <= u && StopLast(u)
    ensures StopLast(s)
  {
    assert forall a :: 0 <= a < |s| ==> s[a] == u[a];
  }

  /** The messages a node has taken respect the order of the edges they came from. */
  lemma InputsInherit(g: System, net: Net, sent: seq<seq<Message>>, v: string)
    requires NetShape(g, net) && v in net && |sent| == |g.edges|
    requires forall k: nat :: k < |g.edges| ==> StopLast(sent[k]) && Taken(g, net, k) <= sent[k]
    ensures InputsStopLast(net[v])
  {
    forall i | 0 <= i < |net[v].ins| ensures StopLast(net[v].ins[i]) {
      var k := InputEdge(g.edges, v, i);
      StopLastPrefix(Taken(g, net, k), sent[k]);
    }
  }

  /** Everything sent, edge by edge. */
  ghost function AllSent(g: System, net: Net): (sent: seq<seq<Message>>)
    requires NetShape(g, net)
    ensures |sent| == |g.edges| && forall k: nat :: k < |g.edges| ==> sent[k] == Sent(g, net, k)
  {
    seq(|g.edges|, k requires 0 <= k < |g.edges| => Sent(g, net, k))
  }

  /** The step lets a timer or tick emit at a node that has met its last stop. */
  ghost predicate LateStep(g: System, net: Net, s: NetStep)
    requires NetShape(g, net)
  {
    StepEnabled(g, net, s) && s.At? && Late(net[s.node], s.step)
  }

  ghost predicate NoLateTimers(g: System, r: Network.Run)
    requires Wired(g)
  {
    r.Then? ==> NoLateTimers(g, r.before) && !LateStep(g, Final(g, r.before), r.step)
  }

  lemma {:induction false} StopsEverywhere(g: System, r: Network.Run)
    requires Wired(g) && SourcesStopLast(g, Final(g, r)) && NoLateTimers(g, r)
    ensures AllStopLast(g, Final(g, r))
    ensures forall v :: v in g.nodes ==> NodeStops(g, Final(g, r), v)
  {
    match r {
      case Begin =>
        forall v | v in g.nodes ensures NodeStops(g, Final(g, r), v) {
          StopInitial(ConfigOf(g, v));
        }
        forall k: nat | k < |g.edges| ensures StopLast(Sent(g, Final(g, r), k)) {
          PositionsInRange(g.edges, k);
        }
      case Then(q, s) =>
        if StepEnabled(g, Final(g, q), s) {
          forall k: nat | k < |g.edges|
            ensures EdgeOk(g, Final(g, q), k) && Sent(g, Final(g, q), k) <= Sent(g, Final(g, r), k)
          {
            EveryEdge(g, q, k);
            EdgeNext(g, Final(g, q), s, k);
          }
          SourcesEarlier(g, Final(g, q), Final(g, r));
          StopsEverywhere(g, q);
          forall v | v in g.nodes ensures NodeStops(g, Final(g, r), v) {
            EveryNode(g, q, v);
            EveryNode(g, r, v);
            StopsNext(g, Final(g, q), s, v);
          }
          SentFollows(g, Final(g, r));
        } else {
          StopsEverywhere(g, q);
        }
    }
  }

  lemma SourcesEarlier(g: System, net: Net, net': Net)
    requires NetShape(g, net) && NetShape(g, net') && SourcesStopLast(g, net')
    requires forall k: nat :: k < |g.edges| ==> Sent(g, net, k) <= Sent(g, net', k)
    ensures SourcesStopLast(g, net)
  {
    forall k: nat | k < |g.edges| && InDegree(g.edges, g.edges[k].fromNode) == 0 ensures StopLast(Sent(g, net, k)) {
      StopLastPrefix(Sent(g, net, k), Sent(g, net', k));
    }
  }

  lemma StopInitial(c: Config)
    ensures c.inputs > 0 ==> StopOk(c, Initial(c))
  {
  }

  lemma StopsNext(g: System, net: Net, s: NetStep, v: string)
    requires NetShape(g, net) && StepEnabled(g, net, s) && !LateStep(g, net, s) && NodeStops(g, net, v)
          && AllStopLast(g, net)
    requires NodeOk(ConfigOf(g, v), net[v])
    requires v in Next(g, net, s) && NodeOk(ConfigOf(g, v), Next(g, net, s)[v])
    requires forall k: nat :: k < |g.edges| ==> EdgeOk(g, net, k)
    ensures NetShape(g, Next(g, net, s)) && NodeStops(g, Next(g, net, s), v)
  {
    NextShape(g, net, s);
    if Actor(g, net, s) == v && InDegree(g.edges, v) > 0 {
      InputsNow(g, net, v);
      InputsAfter(g, net, s, v);
      StopNode(ConfigOf(g, v), net[v], Action(g, net, s));
    }
  }

  lemma InputsNow(g: System, net: Net, v: string)
    requires NetShape(g, net) && v in net && AllStopLast(g, net)
    requires forall k: nat :: k < |g.edges| ==> EdgeOk(g, net, k)
    ensures InputsStopLast(net[v])
  {
    var sent := AllSent(g, net);
    forall k: nat | k < |g.edges| ensures StopLast(sent[k]) && Taken(g, net, k) <= sent[k] {
      assert EdgeOk(g, net, k) && StopLast(Sent(g, net, k));
    }
    InputsInherit(g, net, sent, v);
  }

  lemma InputsAfter(g: System, net: Net, s: NetStep, v: string)
    requires NetShape(g, net) && StepEnabled(g, net, s) && v in net && AllStopLast(g, net)
    requires NetShape(g, Next(g, net, s))
    requires forall k: nat :: k < |g.edges| ==> EdgeOk(g, net, k)
    ensures InputsStopLast(Next(g, net, s)[v])
  {
    var sent := AllSent(g, net);
    forall k: nat | k < |g.edges| ensures StopLast(sent[k]) && Taken(g, Next(g, net, s), k) <= sent[k] {
      assert EdgeOk(g, net, k) && StopLast(Sent(g, net, k));
      EdgeNext(g, net, s, k);
    }
    InputsInherit(g, Next(g, net, s), sent, v);
  }

  lemma StopNode(c: Config, l: Local, s: Step)
    requires NodeOk(c, l) && Enabled(c, l, s) && NodeOk(c, Apply(c, l, s)) && c.inputs > 0
    requires StopOk(c, l) && InputsStopLast(l) && InputsStopLast(Apply(c, l, s)) && !Late(l, s)
    ensures StopOk(c, Apply(c, l, s))
  {
    StopStep(c, l, s);
  }

  lemma SentFollows(g: System, net: Net)
    requires NetShape(g, net) && SourcesStopLast(g, net)
    requires forall v :: v in g.nodes ==> NodeStops(g, net, v)
    ensures AllStopLast(g, net)
  {
    forall k: nat | k < |g.edges| ensures StopLast(Sent(g, net, k)) {
      PositionsInRange(g.edges, k);
      var u, j := g.edges[k].fromNode, OutPos(g.edges, k);
      if InDegree(g.edges, u) > 0 {
        assert NodeStops(g, net, u);
        assert StopSentOk(net[u].phase, Promised(net[u], j));
        StopLastPrefix(net[u].outs[j], Promised(net[u], j));
      }
    }
  }

  /** The edge carries a stop, its last message, and all of it has reached the operator behind it. */
  ghost predicate Finished(g: System, net: Net, k: nat)
    requires NetShape(g, net) && k < |g.edges|
  {
    var v := g.edges[k].toNode;
    && Sent(g, net, k) != [] && Sent(g, net, k)[|Sent(g, net, k)| - 1].Stop? && StopLast(Sent(g, net, k))
    && Taken(g, net, k) == Sent(g, net, k)
    && Stream(net[v].record.dispatched, InPos(g.edges, k)) == Payload(Sent(g, net, k))
  }

  /** Orderly shutdown. If sources send nothing after a stop and no timer emits after a node's last stop,
      then in every run a stop is the last message on every edge, and a node that has sent one has no worker
      running and has dispatched everything that was ever sent on each of its inputs. */
  lemma StopMeansFinished(g: System, r: Network.Run, k: nat)
    requires Wired(g) && SourcesStopLast(g, Final(g, r)) && NoLateTimers(g, r) && k < |g.edges|
    ensures var net, u := Final(g, r), g.edges[k].fromNode;
            && StopLast(Sent(g, net, k))
            && (!NoStop(Sent(g, net, k)) && InDegree(g.edges, u) > 0 ==>
                  && net[u].phase.inflight == 0 && net[u].intake.merged == [] && net[u].agenda.work == []
                  && forall e: nat :: e < |g.edges| && g.edges[e].toNode == u ==> Finished(g, net, e))
  {
    var net, u := Final(g, r), g.edges[k].fromNode;
    StopsEverywhere(g, r);
    if !NoStop(Sent(g, net, k)) && InDegree(g.edges, u) > 0 {
      assert NodeStops(g, net, u);
      EveryNode(g, r, u);
      PositionsInRange(g.edges, k);
      SenderHasStopped(ConfigOf(g, u), net[u], OutPos(g.edges, k));
      forall e: nat | e < |g.edges| && g.edges[e].toNode == u ensures Finished(g, net, e) {
        EveryEdge(g, r, e);
        EdgeFinished(g, net, e);
      }
    }
  }

  lemma SenderHasStopped(c: Config, l: Local, j: nat)
    requires ShapeOk(c, l) && c.inputs > 0 && StopOk(c, l) && j < c.outputs && !NoStop(l.outs[j])
    ensures l.phase.stopping && l.phase.inflight == 0 && l.intake.merged == [] && l.agenda.work == []
    ensures forall i: nat :: i < c.inputs ==> !NoStop(Stream(l.record.dispatched, i))
  {
    SplitStops(l.outs[j], Stream(l.sends, j));
    assert StopSentOk(l.phase, Promised(l, j));
    StoppingMeansAll(c, l.record, l.phase);
  }

  lemma EdgeFinished(g: System, net: Net, e: nat)
    requires EdgeOk(g, net, e) && StopLast(Sent(g, net, e))
    requires var u := g.edges[e].toNode;
             NodeOk(ConfigOf(g, u), net[u]) && forall i: nat :: i < InDegree(g.edges, u) ==>
                   !NoStop(Stream(net[u].record.dispatched, i))
    ensures Finished(g, net, e)
  {
    var u := g.edges[e].toNode;
    PositionsInRange(g.edges, e);
    InputFinished(ConfigOf(g, u), net[u], InPos(g.edges, e), Sent(g, net, e));
  }

  lemma InputFinished(c: Config, l: Local, i: nat, sent: seq<Message>)
    requires NodeOk(c, l) && i < c.inputs && l.ins[i] <= sent && StopLast(sent)
    requires !NoStop(Stream(l.record.dispatched, i))
    ensures l.ins[i] == sent && sent != [] && sent[|sent| - 1].Stop? && Stream(l.record.dispatched, i) == Payload(sent)
  {
    assert InputOk(l.intake, l.ins[i], i);
    StopLastPrefix(l.ins[i], sent);
    StoppedInputIsExhausted(c, l.intake, l.agenda, l.record, l.ins[i], i);
    SplitStops(l.ins[i], sent[|l.ins[i]|..]);
    assert l.ins[i] + sent[|l.ins[i]|..] == sent;
  }

  /** Consecutive edges. */
  ghost predicate EdgePath(g: System, path: seq<nat>) {
    && |path| > 0 && (forall a :: 0 <= a < |path| ==> path[a] < |g.edges|)
    && forall a :: 0 <= a < |path| - 1 ==> g.edges[path[a]].toNode == g.edges[path[a + 1]].fromNode
  }

  /** So a stop anywhere proves that all of the graph upstream is done: along every path of edges into
      the sender of a stop, each edge is finished. */
  lemma {:induction false} StopProvesUpstreamFinished(g: System, r: Network.Run, path: seq<nat>, a: nat)
    requires Wired(g) && SourcesStopLast(g, Final(g, r)) && NoLateTimers(g, r)
    requires EdgePath(g, path) && a < |path| - 1
    requires !NoStop(Sent(g, Final(g, r), path[|path| - 1]))
    ensures Finished(g, Final(g, r), path[a])
    decreases |path| - a
  {
    var next := path[a + 1];
    if a + 1 < |path| - 1 {
      StopProvesUpstreamFinished(g, r, path, a + 1);
    }
    assert !NoStop(Sent(g, Final(g, r), next));
    PositionsInRange(g.edges, path[a]);
    StopMeansFinished(g, r, next);
  }

  // ---------------------------------------------------------------- timers after the last stop

  /** Everything sent on an edge, then what its sender's handler is about to send on it. */
  ghost function PromisedOn(g: System, net: Net, k: nat): seq<Message>
    requires NetShape(g, net) && k < |g.edges|
  {
    PositionsInRange(g.edges, k);
    Promised(net[g.edges[k].fromNode], OutPos(g.edges, k))
  }

  ghost predicate PromiseStopLast(g: System, net: Net, k: nat) {
    NetShape(g, net) && k < |g.edges| && StopLast(PromisedOn(g, net, k))
  }

  ghost predicate AllPromisesStopLast(g: System, net: Net) {
    forall k: nat :: k < |g.edges| ==> PromiseStopLast(g, net, k)
  }

  lemma PromiseKept(g: System, r: Network.Run, k: nat)
    requires Wired(g) && SourcesStopLast(g, Final(g, r)) && NoLateTimers(g, r) && k < |g.edges|
    ensures PromiseStopLast(g, Final(g, r), k)
  {
    StopsEverywhere(g, r);
    PositionsInRange(g.edges, k);
    var net, u, j := Final(g, r), g.edges[k].fromNode, OutPos(g.edges, k);
    if InDegree(g.edges, u) == 0 {
      EveryNode(g, r, u);
      Assoc(net[u].outs[j], [], []);
    } else {
      assert NodeStops(g, net, u);
      assert StopSentOk(net[u].phase, Promised(net[u], j));
    }
  }

  lemma PromiseGrows(g: System, net: Net, s: NetStep, k: nat)
    requires NetShape(g, net) && StepEnabled(g, net, s) && k < |g.edges|
    requires NodeOk(ConfigOf(g, g.edges[k].fromNode), net[g.edges[k].fromNode])
    ensures NetShape(g, Next(g, net, s)) && PromisedOn(g, net, k) <= PromisedOn(g, Next(g, net, s), k)
  {
    var u := g.edges[k].fromNode;
    NextShape(g, net, s);
    PositionsInRange(g.edges, k);
    if Actor(g, net, s) == u {
      PromisedGrows(ConfigOf(g, u), net[u], Action(g, net, s), OutPos(g.edges, k));
    }
  }

  lemma PromiseEarlier(g: System, q: Network.Run, s: NetStep, k: nat)
    requires Wired(g) && StepEnabled(g, Final(g, q), s) && PromiseStopLast(g, Final(g, Then(q, s)), k)
    ensures PromiseStopLast(g, Final(g, q), k)
  {
    EveryNode(g, q, g.edges[k].fromNode);
    PromiseGrows(g, Final(g, q), s, k);
    StopLastPrefix(PromisedOn(g, Final(g, q), k), PromisedOn(g, Final(g, Then(q, s)), k));
  }

  /** A node that fires late has promised its stop, so what it fires comes behind it. */
  lemma LateData(c: Config, l: Local, s: Step, j: nat)
    requires ShapeOk(c, l) && StopOk(c, l) && Enabled(c, l, s) && Late(l, s) && j == s.emits[|s.emits| - 1].input
    ensures j < c.outputs && |Apply(c, l, s).outs| == c.outputs && !StopLast(Promised(Apply(c, l, s), j))
  {
    assert StopSentOk(l.phase, Promised(l, j));
    PromisedGrows(c, l, s, j);
    StreamOfLast(s.emits);
    SplitStops(Promised(l, j), Stream(s.emits, j));
  }

  /** A late timer puts data behind a stop. */
  lemma LateBreaks(g: System, q: Network.Run, s: NetStep) returns (k: nat)
    requires Wired(g) && SourcesStopLast(g, Final(g, q)) && NoLateTimers(g, q) && LateStep(g, Final(g, q), s)
    ensures k < |g.edges| && !PromiseStopLast(g, Final(g, Then(q, s)), k)
  {
    var net, u := Final(g, q), s.node;
    var j := s.step.emits[|s.step.emits| - 1].input;
    StopsEverywhere(g, q);
    EveryNode(g, q, u);
    assert NodeStops(g, net, u);
    LateData(ConfigOf(g, u), net[u], s.step, j);
    k := OutputEdge(g.edges, u, j);
  }

  /** With sources that send nothing after a stop, a stop is and stays the last message on every edge if
      and only if no timer or tick emits at a node after the node's last stop. */
  lemma StopLastIffNoLateTimers(g: System, r: Network.Run)
    requires Wired(g) && SourcesStopLast(g, Final(g, r))
    ensures AllPromisesStopLast(g, Final(g, r)) <==> NoLateTimers(g, r)
  {
    if NoLateTimers(g, r) {
      forall k: nat | k < |g.edges| ensures PromiseStopLast(g, Final(g, r), k) {
        PromiseKept(g, r, k);
      }
    }
    if AllPromisesStopLast(g, Final(g, r)) {
      NoneWereLate(g, r);
    }
  }

  lemma {:induction false} NoneWereLate(g: System, r: Network.Run)
    requires Wired(g) && SourcesStopLast(g, Final(g, r)) && AllPromisesStopLast(g, Final(g, r))
    ensures NoLateTimers(g, r)
  {
    match r {
      case Begin =>
      case Then(q, s) =>
        if StepEnabled(g, Final(g, q), s) {
          forall k: nat | k < |g.edges| ensures PromiseStopLast(g, Final(g, q), k) {
            PromiseEarlier(g, q, s, k);
          }
          SourcesBefore(g, q, s);
        }
        NoneWereLate(g, q);
        if LateStep(g, Final(g, q), s) {
          var k := LateBreaks(g, q, s);
        }
    }
  }

  lemma SourcesBefore(g: System, q: Network.Run, s: NetStep)
    requires Wired(g) && StepEnabled(g, Final(g, q), s) && SourcesStopLast(g, Final(g, Then(q, s)))
    ensures SourcesStopLast(g, Final(g, q))
  {
    forall k: nat | k < |g.edges| ensures Sent(g, Final(g, q), k) <= Sent(g, Final(g, Then(q, s)), k) {
      EveryEdge(g, q, k);
      EdgeNext(g, Final(g, q), s, k);
    }
    SourcesEarlier(g, Final(g, q), Final(g, Then(q, s)));
  }

  ghost predicate Leads(c: Config, l: Local, s: Step, l': Local) {
    Enabled(c, l, s) && l' == Apply(c, l, s)
  }

  lemma PushOne(s: seq<Message>, m: Message, t: seq<Message>)
    requires t == s + [m]
    ensures Push([s], 0, m) == [t]
  {
    var pushed := Push([s], 0, m);
    assert |pushed| == 1 && pushed[0] == t;
  }

  const ONE_TO_ONE := Config(1, 1, false)

  /** A stop has been dispatched and not been forwarded. */
  ghost predicate AboutToStop(l: Local) {
    && l.sends == [] && l.agenda.work == [] && l.agenda.barrier.None? && l.agenda.advance.None?
    && l.phase.stopping && !l.phase.drained && l.phase.inflight == 0 && l.outs == [[]]
  }

  lemma TakesStop() returns (l1: Local, l2: Local, l3: Local)
    ensures Leads(ONE_TO_ONE, Initial(ONE_TO_ONE), Merge(0, Stop), l1)
    ensures Leads(ONE_TO_ONE, l1, Take, l2) && Leads(ONE_TO_ONE, l2, Process([]), l3) && AboutToStop(l3)
  {
    l1 := Apply(ONE_TO_ONE, Initial(ONE_TO_ONE), Merge(0, Stop));
    assert l1.intake.merged == [Indexed(0, Stop)];
    l2 := Apply(ONE_TO_ONE, l1, Take);
    assert l2.agenda.work == [Indexed(0, Stop)];
    l3 := Apply(ONE_TO_ONE, l2, Process([]));
  }

  lemma ForwardsThenFires(l3: Local, d: DataMessage) returns (l4: Local, l5: Local, l6: Local, l7: Local)
    requires AboutToStop(l3)
    ensures Leads(ONE_TO_ONE, l3, Drain, l4) && Leads(ONE_TO_ONE, l4, Send, l5)
    ensures Leads(ONE_TO_ONE, l5, FireTimers([Indexed(0, Data(d))]), l6) && Leads(ONE_TO_ONE, l6, Send, l7)
    ensures l5.phase.stopping && l7.outs == [[Stop, Data(d)]]
  {
    l4 := Apply(ONE_TO_ONE, l3, Drain);
    assert l4.sends == [Indexed(0, Stop)];
    PushOne([], Stop, [Stop]);
    l5 := Apply(ONE_TO_ONE, l4, Send);
    l6 := Apply(ONE_TO_ONE, l5, FireTimers([Indexed(0, Data(d))]));
    PushOne([Stop], Data(d), [Stop, Data(d)]);
    l7 := Apply(ONE_TO_ONE, l6, Send);
  }

  /** A source, an operator and a sink in a line. */
  const LINE := System([Edge("s", "", "o", ""), Edge("o", "", "k", "")], {"s", "o", "k"}, {})

  lemma LineShape()
    ensures Wired(LINE) && ConfigOf(LINE, "s") == Config(0, 1, false) && ConfigOf(LINE, "o") == ONE_TO_ONE
    ensures InPos(LINE.edges, 0) == OutPos(LINE.edges, 0) == OutPos(LINE.edges, 1) == 0
  {
    var es := LINE.edges;
    assert es[..0] == [] && es[..1] == [es[0]] && es[..1][..0] == [] && es[..2] == es;
    assert OutDegree(es[..1], "s") == 1 && OutDegree(es[..1], "o") == 0;
    assert InDegree(es[..1], "s") == 0 && InDegree(es[..1], "o") == 1;
  }

  /** The operator takes a step of its own. */
  lemma OperatorStep(q: Network.Run, a: Step, l: Local, l': Local)
    requires Wired(LINE) && Final(LINE, q)["o"] == l && Leads(ONE_TO_ONE, l, a, l') && !a.Merge?
    ensures StepEnabled(LINE, Final(LINE, q), At("o", a))
    ensures Final(LINE, Then(q, At("o", a)))["o"] == l'
    ensures Final(LINE, Then(q, At("o", a)))["s"] == Final(LINE, q)["s"]
  {
    LineShape();
  }

  lemma SourceStops() returns (q: Network.Run)
    ensures Wired(LINE) && NoLateTimers(LINE, q)
    ensures Final(LINE, q)["s"].outs == [[Stop]] && Final(LINE, q)["o"] == Initial(ONE_TO_ONE)
  {
    LineShape();
    q := Then(Begin, At("s", SourceSend(0, Stop)));
    var none: seq<seq<Message>> := [[]];
    assert Initial(Config(0, 1, false)).outs == none;
    PushOne([], Stop, [Stop]);
    assert Final(LINE, Begin) == Network.Start(LINE);
  }

  /** The source sends a stop, and the operator's merger takes it. */
  lemma StopArrives(l1: Local) returns (q: Network.Run)
    requires Leads(ONE_TO_ONE, Initial(ONE_TO_ONE), Merge(0, Stop), l1)
    ensures Wired(LINE) && Final(LINE, q)["o"] == l1 && Final(LINE, q)["s"].outs == [[Stop]] && NoLateTimers(LINE, q)
  {
    var first := SourceStops();
    LineShape();
    assert Sent(LINE, Final(LINE, first), 0) == [Stop] && Taken(LINE, Final(LINE, first), 0) == [];
    q := Then(first, Move(0));
  }

  /** It happens: sources send nothing after a stop, an operator forwards the stop, and then its timer emits `d`
      behind it. */
  lemma LateTimerExample(d: DataMessage) returns (r: Network.Run)
    ensures Wired(LINE) && SourcesStopLast(LINE, Final(LINE, r)) && !NoLateTimers(LINE, r)
    ensures Sent(LINE, Final(LINE, r), 1) == [Stop, Data(d)]
  {
    LineShape();
    var l1, l2, l3 := TakesStop();
    var l4, l5, l6, l7 := ForwardsThenFires(l3, d);
    var q1 := StopArrives(l1);
    OperatorStep(q1, Take, l1, l2);
    var q2 := Then(q1, At("o", Take));
    OperatorStep(q2, Process([]), l2, l3);
    var q3 := Then(q2, At("o", Process([])));
    OperatorStep(q3, Drain, l3, l4);
    var q4 := Then(q3, At("o", Drain));
    OperatorStep(q4, Send, l4, l5);
    var q5 := Then(q4, At("o", Send));
    r := FiresLate(q5, l5, l6, l7, d);
  }

  lemma SourceIsSilent(q: Network.Run)
    requires Wired(LINE) && Final(LINE, q)["s"].outs == [[Stop]]
    ensures SourcesStopLast(LINE, Final(LINE, q))
  {
    LineShape();
    forall k: nat | k < |LINE.edges| && InDegree(LINE.edges, LINE.edges[k].fromNode) == 0
      ensures StopLast(Sent(LINE, Final(LINE, q), k))
    {
      assert k == 0;
      assert Sent(LINE, Final(LINE, q), 0) == [Stop];
    }
  }

  lemma FiringIsLate(q: Network.Run, a: Step, l: Local, l': Local)
    requires Wired(LINE) && Final(LINE, q)["o"] == l && Leads(ONE_TO_ONE, l, a, l') && Late(l, a)
    ensures !NoLateTimers(LINE, Then(q, At("o", a)))
  {
    OperatorStep(q, a, l, l');
    assert LateStep(LINE, Final(LINE, q), At("o", a));
  }

  lemma FiresLate(q: Network.Run, l5: Local, l6: Local, l7: Local, d: DataMessage) returns (r: Network.Run)
    requires Wired(LINE) && Final(LINE, q)["o"] == l5 && l5.phase.stopping && Final(LINE, q)["s"].outs == [[Stop]]
    requires Leads(ONE_TO_ONE, l5, FireTimers([Indexed(0, Data(d))]), l6) && Leads(ONE_TO_ONE, l6, Send, l7)
    requires l7.outs == [[Stop, Data(d)]]
    ensures SourcesStopLast(LINE, Final(LINE, r)) && !NoLateTimers(LINE, r)
    ensures Sent(LINE, Final(LINE, r), 1) == [Stop, Data(d)]
  {
    var fire := FireTimers([Indexed(0, Data(d))]);
    var late := Then(q, At("o", fire));
    OperatorStep(q, fire, l5, l6);
    FiringIsLate(q, fire, l5, l6);
    OperatorStep(late, Send, l6, l7);
    r := Then(late, At("o", Send));
    SourceIsSilent(r);
    LineShape();
  }
}
