/** When an epoch is initiated only after every node has taken its snapshot for the one before, no
    alignment ever swallows a barrier, and all nodes agree on the epochs. The program leaves this
    spacing to its callers (internal/engine/barrier_aligner.go, internal/engine/controller.go). */
module SpacedEpochs {
  import opened Messages
  import opened Alignment
  import opened NodeRuntime
  import opened StopProtocol
  import opened Network
  import opened GraphRuns

  ghost function Snaps(net: Net, v: string): nat
    requires v in net
  {
    |net[v].record.snapshots|
  }

  /** A source puts a barrier on an output only if every node with inputs has taken a snapshot for each
      barrier already on that output. */
  ghost predicate MayTake(g: System, net: Net, s: NetStep)
    requires NetShape(g, net)
  {
    StepEnabled(g, net, s) && s.At? && s.step.SourceSend? && s.step.msg.Barrier? ==>
      forall v :: v in g.nodes && InDegree(g.edges, v) > 0 ==> |Barriers(net[s.node].outs[s.step.out])| <= Snaps(net, v)
  }

  ghost predicate Spaced(g: System, r: Network.Run)
    requires Wired(g)
  {
    r.Then? ==> Spaced(g, r.before) && MayTake(g, Final(g, r.before), r.step)
  }

  // ---------------------------------------------------------------- one node

  lemma BarriersPrefix(s: seq<Message>, u: seq<Message>)
    requires s <= u
    ensures Barriers(s) <= Barriers(u)
  {
    assert u == s + u[|s|..];
    BarriersAppend(s, u[|s|..]);
  }

  /** A node takes no more snapshots than any of its inputs has delivered barriers. */
  lemma SnapshotsNeedBarriers(c: Config, l: Local, i: nat)
    requires NodeOk(c, l) && i < c.inputs
    ensures |l.record.snapshots| <= |Barriers(Stream(l.intake.fed, i))|
    ensures Barriers(Stream(l.intake.fed, i)) <= Barriers(l.ins[i])
  {
    BarriersAccounted(c.inputs, l.intake.fed, i);
    assert |BarriersOf(l.record.snapshots) + Maybe(l.agenda.barrier)| ==
          |Alignment.Run(c.inputs, l.intake.fed).aligned|;
    assert InputOk(l.intake, l.ins[i], i);
    CutUnwatermarked(Stream(l.intake.arrived, i), 0);
    BarriersPrefix(Stream(l.intake.arrived, i), l.ins[i]);
  }

  /** A node with inputs sends no barrier but those of its snapshots. */
  lemma BarriersNeedSnapshots(c: Config, l: Local, j: nat)
    requires NodeOk(c, l) && c.inputs > 0 && j < c.outputs
    ensures Barriers(l.outs[j]) <= BarriersOf(l.record.snapshots)
  {
    SenderSide(c, l, j);
    BarriersPrefix(l.outs[j], Promised(l, j));
  }

  /** A step of a source adds a barrier to an output only by sending it there. */
  lemma SourceStep(c: Config, l: Local, s: Step, j: nat)
    requires ShapeOk(c, l) && c.inputs == 0 && Enabled(c, l, s) && j < c.outputs
    ensures |Apply(c, l, s).outs| == c.outputs
    ensures (s.SourceSend? && s.out == j && s.msg.Barrier?) || Barriers(Apply(c, l, s).outs[j]) == Barriers(l.outs[j])
    ensures |Barriers(Apply(c, l, s).outs[j])| <= |Barriers(l.outs[j])| + 1
  {
    match s {
      case SourceSend(_, m) => BarriersSnoc(l.outs[j], m);
      case WorkerEmit(_, m) => BarriersSnoc(l.outs[j], m);
      case _ =>
    }
  }

  /** A step does not lose snapshots, and one that takes a snapshot sends nothing yet. */
  lemma SnapshotsKept(c: Config, l: Local, s: Step)
    requires Enabled(c, l, s)
    ensures l.record.snapshots <= Apply(c, l, s).record.snapshots
    ensures s.TakeSnapshot? ==> Apply(c, l, s).outs == l.outs
    ensures !s.TakeSnapshot? ==> Apply(c, l, s).record.snapshots == l.record.snapshots
  {
  }

  // ---------------------------------------------------------------- every edge

  /** Node `v` is at most one snapshot behind the barriers on the edge. */
  ghost predicate EdgeSpaced(g: System, net: Net, v: string, k: nat) {
    && k < |g.edges| && NetShape(g, net) && v in net
    && |Barriers(Sent(g, net, k))| <= Snaps(net, v) + 1
  }

  ghost predicate AllSpaced(g: System, net: Net, v: string) {
    forall k: nat :: k < |g.edges| ==> EdgeSpaced(g, net, v, k)
  }

  ghost predicate NodeSound(g: System, net: Net, u: string) {
    u in net && NodeOk(ConfigOf(g, u), net[u])
  }

  /** What is known of every reachable state. */
  ghost predicate Sound(g: System, net: Net) {
    && NetShape(g, net)
    && (forall u :: u in net ==> NodeSound(g, net, u))
    && (forall k: nat :: k < |g.edges| ==> EdgeOk(g, net, k))
  }

  lemma Reachable(g: System, r: Network.Run)
    requires Wired(g)
    ensures Sound(g, Final(g, r))
  {
    forall u | u in Final(g, r) ensures NodeSound(g, Final(g, r), u) {
      EveryNode(g, r, u);
    }
    forall k: nat | k < |g.edges| ensures EdgeOk(g, Final(g, r), k) {
      EveryEdge(g, r, k);
    }
  }

  /** What a node's aligner has seen of an input came over the edge into it. */
  lemma InputBarriers(g: System, net: Net, u: string, i: nat) returns (k: nat)
    requires Sound(g, net) && u in net && i < InDegree(g.edges, u)
    ensures k < |g.edges| && Barriers(Stream(net[u].intake.fed, i)) <= Barriers(Sent(g, net, k))
    ensures Snaps(net, u) <= |Barriers(Stream(net[u].intake.fed, i))|
  {
    k := InputEdge(g.edges, u, i);
    assert EdgeOk(g, net, k) && NodeSound(g, net, u);
    SnapshotsNeedBarriers(ConfigOf(g, u), net[u], i);
    BarriersPrefix(Taken(g, net, k), Sent(g, net, k));
  }

  /** So no node is more than one snapshot ahead of `v`. */
  lemma SnapshotsClose(g: System, net: Net, v: string, u: string)
    requires Sound(g, net) && v in net && AllSpaced(g, net, v) && u in net && InDegree(g.edges, u) > 0
    ensures Snaps(net, u) <= Snaps(net, v) + 1
  {
    var k := InputBarriers(g, net, u, 0);
    assert EdgeSpaced(g, net, v, k);
  }

  /** Node `v` does not lose snapshots. */
  lemma SnapsGrow(g: System, net: Net, s: NetStep, v: string)
    requires NetShape(g, net) && StepEnabled(g, net, s) && v in net
    ensures v in Next(g, net, s) && Snaps(net, v) <= Snaps(Next(g, net, s), v)
  {
    SnapshotsKept(ConfigOf(g, Actor(g, net, s)), net[Actor(g, net, s)], Action(g, net, s));
  }

  /** The sender of the edge takes a step. */
  lemma SenderSpaced(g: System, net: Net, s: NetStep, v: string, k: nat)
    requires Sound(g, net) && AllSpaced(g, net, v) && v in net && InDegree(g.edges, v) > 0 && k < |g.edges|
    requires StepEnabled(g, net, s) && MayTake(g, net, s) && Sound(g, Next(g, net, s))
    requires Actor(g, net, s) == g.edges[k].fromNode
    ensures |Barriers(Sent(g, Next(g, net, s), k))| <= Snaps(net, v) + 1
  {
    var net', u, j, a := Next(g, net, s), g.edges[k].fromNode, OutPos(g.edges, k), Action(g, net, s);
    PositionsInRange(g.edges, k);
    assert EdgeSpaced(g, net, v, k);
    if InDegree(g.edges, u) == 0 {
      assert NodeSound(g, net, u);
      SourceStep(ConfigOf(g, u), net[u], a, j);
    } else {
      SnapshotsKept(ConfigOf(g, u), net[u], a);
      if !a.TakeSnapshot? {
        assert NodeSound(g, net', u);
        BarriersNeedSnapshots(ConfigOf(g, u), net'[u], j);
        SnapshotsClose(g, net, v, u);
      }
    }
  }

  lemma SpacedStep(g: System, net: Net, s: NetStep, v: string, k: nat)
    requires Sound(g, net) && AllSpaced(g, net, v) && v in net && InDegree(g.edges, v) > 0 && k < |g.edges|
    requires StepEnabled(g, net, s) && MayTake(g, net, s) && Sound(g, Next(g, net, s))
    ensures EdgeSpaced(g, Next(g, net, s), v, k)
  {
    SnapsGrow(g, net, s, v);
    PositionsInRange(g.edges, k);
    if Actor(g, net, s) == g.edges[k].fromNode {
      SenderSpaced(g, net, s, v, k);
    } else {
      assert EdgeSpaced(g, net, v, k);
    }
  }

  lemma {:induction false} StaysSpaced(g: System, r: Network.Run, v: string)
    requires Wired(g) && Spaced(g, r) && v in g.nodes && InDegree(g.edges, v) > 0
    ensures AllSpaced(g, Final(g, r), v)
  {
    forall k: nat | k < |g.edges| ensures EdgeSpaced(g, Final(g, r), v, k) {
      match r {
        case Begin => PositionsInRange(g.edges, k);
        case Then(q, s) =>
          StaysSpaced(g, q, v);
          if StepEnabled(g, Final(g, q), s) {
            Reachable(g, q);
            Reachable(g, r);
            SpacedStep(g, Final(g, q), s, v, k);
          } else {
            assert EdgeSpaced(g, Final(g, q), v, k);
          }
      }
    }
  }

  // ---------------------------------------------------------------- no barrier is swallowed

  /** A repeated barrier would be its input's second since the last alignment. */
  lemma NoRepeatFed(n: nat, fed: seq<Indexed>, m: Indexed)
    requires InRange(n, fed) && NoRepeats(n, fed) && m.input < n
    requires |Barriers(Stream(fed + [m], m.input))| <= |Alignment.Run(n, fed).aligned| + 1
    ensures NoRepeats(n, fed + [m])
  {
    assert (fed + [m])[..|fed|] == fed && (fed + [m])[|fed|] == m;
    ExactCount(n, fed, m.input);
    StreamSnoc(fed, m, m.input);
    BarriersSnoc(Stream(fed, m.input), m.msg);
  }

  lemma AllSnapped(c: Config, l: Local)
    requires AlignOk(c, l.intake, l.agenda, l.record) && l.agenda.barrier.None?
    ensures |l.record.snapshots| == |Alignment.Run(c.inputs, l.intake.fed).aligned|
  {
    var aligned := Alignment.Run(c.inputs, l.intake.fed).aligned;
    assert |BarriersOf(l.record.snapshots) + Maybe(l.agenda.barrier)| == |aligned|;
  }

  /** Only taking a message feeds the aligner. */
  lemma FedNext(c: Config, l: Local, s: Step)
    requires Enabled(c, l, s)
    ensures if s.Take? && !l.intake.merged[0].msg.Watermark?
            then l.agenda.barrier.None? && Apply(c, l, s).intake.fed == l.intake.fed + [l.intake.merged[0]]
            else Apply(c, l, s).intake.fed == l.intake.fed
  {
  }

  lemma NoRepeatStep(c: Config, l: Local, s: Step)
    requires AlignOk(c, l.intake, l.agenda, l.record) && InRange(c.inputs, l.intake.fed)
    requires Enabled(c, l, s) && NoRepeats(c.inputs, l.intake.fed) && InRange(c.inputs, Apply(c, l, s).intake.fed)
    requires forall i: nat :: i < c.inputs ==>
               |Barriers(Stream(Apply(c, l, s).intake.fed, i))| <= |l.record.snapshots| + 1
    ensures NoRepeats(c.inputs, Apply(c, l, s).intake.fed)
  {
    FedNext(c, l, s);
    if s.Take? && !l.intake.merged[0].msg.Watermark? {
      var fed, m := l.intake.fed, l.intake.merged[0];
      assert (fed + [m])[|fed|] == m;
      AllSnapped(c, l);
      NoRepeatFed(c.inputs, fed, m);
    }
  }

  lemma NoRepeatNext(g: System, net: Net, s: NetStep, v: string)
    requires Sound(g, net) && StepEnabled(g, net, s) && v in net && Actor(g, net, s) == v
    requires Sound(g, Next(g, net, s)) && AllSpaced(g, Next(g, net, s), v)
    requires NoRepeats(InDegree(g.edges, v), net[v].intake.fed)
    ensures NoRepeats(InDegree(g.edges, v), Next(g, net, s)[v].intake.fed)
  {
    var c, a, net' := ConfigOf(g, v), Action(g, net, s), Next(g, net, s);
    SnapshotsKept(c, net[v], a);
    if !a.TakeSnapshot? {
      forall i: nat | i < c.inputs ensures |Barriers(Stream(net'[v].intake.fed, i))| <= Snaps(net, v) + 1 {
        var k := InputBarriers(g, net', v, i);
        assert EdgeSpaced(g, net', v, k);
      }
      assert NodeSound(g, net, v) && NodeSound(g, net', v);
      NoRepeatStep(c, net[v], a);
    }
  }

  /** Under spaced epochs no input of any node delivers a second barrier while an alignment is open, in
      any run, whatever the delays on the edges. */
  lemma {:induction false} NothingIsSwallowed(g: System, r: Network.Run, v: string)
    requires Wired(g) && Spaced(g, r) && v in g.nodes
    ensures NoRepeats(InDegree(g.edges, v), Fed(g, r, v))
  {
    if InDegree(g.edges, v) == 0 {
      EveryNode(g, r, v);
      NothingFed(ConfigOf(g, v), Final(g, r)[v]);
    } else {
      match r {
        case Begin => assert Final(g, r)[v] == Initial(ConfigOf(g, v));
        case Then(q, s) =>
          NothingIsSwallowed(g, q, v);
          if StepEnabled(g, Final(g, q), s) {
            SwallowNext(g, q, s, v);
          }
      }
    }
  }

  lemma SwallowNext(g: System, q: Network.Run, s: NetStep, v: string)
    requires Wired(g) && Spaced(g, Then(q, s)) && v in g.nodes && InDegree(g.edges, v) > 0
    requires StepEnabled(g, Final(g, q), s) && NoRepeats(InDegree(g.edges, v), Fed(g, q, v))
    ensures NoRepeats(InDegree(g.edges, v), Next(g, Final(g, q), s)[v].intake.fed)
  {
    var net := Final(g, q);
    if Actor(g, net, s) == v {
      Reachable(g, q);
      Reachable(g, Then(q, s));
      StaysSpaced(g, Then(q, s), v);
      NoRepeatNext(g, net, s, v);
    }
  }

  lemma NothingFed(c: Config, l: Local)
    requires NodeOk(c, l) && c.inputs == 0
    ensures l.intake.fed == []
  {
  }

  /** So on every edge between nodes with inputs, and without any other premise, a snapshot has consumed
      exactly what its sender had put on the edge before its own, followed by what was held back. */
  lemma SpacedConsistentCut(g: System, r: Network.Run, k: nat, q: nat)
    requires Wired(g) && Spaced(g, r) && k < |g.edges| && InDegree(g.edges, g.edges[k].fromNode) > 0
    requires q < |Snapshots(g, r, g.edges[k].toNode)|
    ensures var mine, theirs := Snapshots(g, r, g.edges[k].toNode), Snapshots(g, r, g.edges[k].fromNode);
            var i, j := InPos(g.edges, k), OutPos(g.edges, k);
            && q < |theirs| && j < |theirs[q].sentBefore|
            && Stream(mine[q].consumed, i) == Payload(theirs[q].sentBefore[j]) + Stream(mine[q].heldBack, i)
  {
    NothingIsSwallowed(g, r, g.edges[k].toNode);
    ConsistentCut(g, r, k, q);
  }

  // ---------------------------------------------------------------- all nodes agree on the epochs

  /** Every source edge carries barriers for these epochs in this order, as far as it has got. */
  ghost predicate SourcesAgree(g: System, net: Net, all: seq<nat>)
    requires NetShape(g, net)
  {
    forall k: nat :: k < |g.edges| && InDegree(g.edges, g.edges[k].fromNode) == 0 ==>
      EpochsOf(Barriers(Sent(g, net, k))) <= all
  }

  ghost predicate EdgeAgrees(g: System, net: Net, all: seq<nat>, k: nat) {
    k < |g.edges| && NetShape(g, net) && EpochsOf(Barriers(Sent(g, net, k))) <= all
  }

  ghost predicate AllAgree(g: System, net: Net, all: seq<nat>) {
    forall k: nat :: k < |g.edges| ==> EdgeAgrees(g, net, all, k)
  }

  /** A node whose inputs carry barriers for these epochs takes its snapshots for them, in order. */
  lemma NodeAgrees(g: System, net: Net, all: seq<nat>, u: string)
    requires Sound(g, net) && AllAgree(g, net, all) && u in net && InDegree(g.edges, u) > 0
    requires NoRepeats(InDegree(g.edges, u), net[u].intake.fed)
    ensures EpochsOf(BarriersOf(net[u].record.snapshots)) <= all
  {
    var c, l := ConfigOf(g, u), net[u];
    forall i: nat | i < c.inputs ensures EpochsOf(Barriers(Stream(l.intake.fed, i))) <= all {
      var k := InputBarriers(g, net, u, i);
      assert EdgeAgrees(g, net, all, k);
      EpochsPrefix(Barriers(Stream(l.intake.fed, i)), Barriers(Sent(g, net, k)));
    }
    assert NodeSound(g, net, u);
    AlignedInOrder(c.inputs, l.intake.fed, all);
    EpochsPrefix(BarriersOf(l.record.snapshots), Alignment.Run(c.inputs, l.intake.fed).aligned);
  }

  /** What a node with inputs sends follows its snapshots. */
  lemma OutputFollows(c: Config, l: Local, s: Step, j: nat, all: seq<nat>)
    requires Enabled(c, l, s) && NodeOk(c, Apply(c, l, s)) && c.inputs > 0 && j < c.outputs
    requires EpochsOf(BarriersOf(l.record.snapshots)) <= all
    requires |l.outs| == c.outputs && EpochsOf(Barriers(l.outs[j])) <= all
    ensures EpochsOf(Barriers(Apply(c, l, s).outs[j])) <= all
  {
    var l' := Apply(c, l, s);
    SnapshotsKept(c, l, s);
    if !s.TakeSnapshot? {
      BarriersNeedSnapshots(c, l', j);
      EpochsPrefix(Barriers(l'.outs[j]), BarriersOf(l'.record.snapshots));
    }
  }

  /** A node with inputs, sending on the edge, takes a step. */
  lemma SenderAgrees(g: System, net: Net, s: NetStep, all: seq<nat>, k: nat)
    requires Sound(g, net) && AllAgree(g, net, all) && k < |g.edges|
    requires StepEnabled(g, net, s) && Sound(g, Next(g, net, s)) && Actor(g, net, s) == g.edges[k].fromNode
    requires InDegree(g.edges, g.edges[k].fromNode) > 0
    requires NoRepeats(InDegree(g.edges, g.edges[k].fromNode), net[g.edges[k].fromNode].intake.fed)
    ensures EdgeAgrees(g, Next(g, net, s), all, k)
  {
    var u := g.edges[k].fromNode;
    PositionsInRange(g.edges, k);
    NodeAgrees(g, net, all, u);
    assert EdgeAgrees(g, net, all, k) && NodeSound(g, Next(g, net, s), u);
    OutputFollows(ConfigOf(g, u), net[u], Action(g, net, s), OutPos(g.edges, k), all);
  }

  lemma AgreeStep(g: System, net: Net, s: NetStep, all: seq<nat>, k: nat)
    requires Sound(g, net) && AllAgree(g, net, all) && k < |g.edges|
    requires StepEnabled(g, net, s) && Sound(g, Next(g, net, s)) && SourcesAgree(g, Next(g, net, s), all)
    requires NoRepeats(InDegree(g.edges, g.edges[k].fromNode), net[g.edges[k].fromNode].intake.fed)
    ensures EdgeAgrees(g, Next(g, net, s), all, k)
  {
    var u := g.edges[k].fromNode;
    PositionsInRange(g.edges, k);
    if Actor(g, net, s) == u && InDegree(g.edges, u) > 0 {
      SenderAgrees(g, net, s, all, k);
    } else {
      assert EdgeAgrees(g, net, all, k);
    }
  }

  lemma AgreeNext(g: System, q: Network.Run, s: NetStep, all: seq<nat>, k: nat)
    requires Wired(g) && Spaced(g, q) && AllAgree(g, Final(g, q), all) && k < |g.edges|
    requires StepEnabled(g, Final(g, q), s) && SourcesAgree(g, Final(g, Then(q, s)), all)
    ensures EdgeAgrees(g, Final(g, Then(q, s)), all, k)
  {
    Reachable(g, q);
    Reachable(g, Then(q, s));
    NothingIsSwallowed(g, q, g.edges[k].fromNode);
    AgreeStep(g, Final(g, q), s, all, k);
  }

  lemma {:induction false} EdgesAgree(g: System, r: Network.Run, all: seq<nat>)
    requires Wired(g) && Spaced(g, r) && SourcesAgree(g, Final(g, r), all)
    ensures AllAgree(g, Final(g, r), all)
  {
    match r {
      case Begin =>
        forall k: nat | k < |g.edges| ensures EdgeAgrees(g, Final(g, r), all, k) {
          PositionsInRange(g.edges, k);
        }
      case Then(q, s) =>
        EarlierAgree(g, r, all);
        EdgesAgree(g, q, all);
        if StepEnabled(g, Final(g, q), s) {
          forall k: nat | k < |g.edges| ensures EdgeAgrees(g, Final(g, r), all, k) {
            AgreeNext(g, q, s, all, k);
          }
        }
    }
  }

  lemma EarlierAgree(g: System, r: Network.Run, all: seq<nat>)
    requires Wired(g) && r.Then? && SourcesAgree(g, Final(g, r), all)
    ensures SourcesAgree(g, Final(g, r.before), all)
  {
    if StepEnabled(g, Final(g, r.before), r.step) {
      forall k: nat | k < |g.edges| && InDegree(g.edges, g.edges[k].fromNode) == 0
        ensures EpochsOf(Barriers(Sent(g, Final(g, r.before), k))) <= all
      {
        EveryEdge(g, r.before, k);
        EdgeNext(g, Final(g, r.before), r.step, k);
        BarriersPrefix(Sent(g, Final(g, r.before), k), Sent(g, Final(g, r), k));
        EpochsPrefix(Barriers(Sent(g, Final(g, r.before), k)), Barriers(Sent(g, Final(g, r), k)));
      }
    }
  }

  /** One epoch, one cut: if the sources inject the same epochs in the same order, spaced out, then the
      `q`-th snapshot of every node is for the `q`-th of them. */
  lemma SnapshotsAgree(g: System, r: Network.Run, all: seq<nat>, v: string, q: nat)
    requires Wired(g) && Spaced(g, r) && SourcesAgree(g, Final(g, r), all)
    requires v in g.nodes && InDegree(g.edges, v) > 0 && q < |Snapshots(g, r, v)|
    ensures q < |all| && Snapshots(g, r, v)[q].barrier.epoch == all[q]
  {
    EdgesAgree(g, r, all);
    Reachable(g, r);
    NothingIsSwallowed(g, r, v);
    NodeAgrees(g, Final(g, r), all, v);
    assert EpochsOf(BarriersOf(Snapshots(g, r, v)))[q] == Snapshots(g, r, v)[q].barrier.epoch;
  }
}
