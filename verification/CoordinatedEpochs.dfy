/** The graph and the controller together (internal/engine/runtime.go, internal/engine/controller.go). A
    caller who initiates an epoch only when the controller shows the earlier ones as complete gets, in every
    run, one consistent cut for each epoch. */
module CoordinatedEpochs {
  import opened Collections
  import opened Messages
  import opened Codecs
  import opened Alignment
  import opened NodeRuntime
  import opened StopProtocol
  import opened Network
  import opened GraphRuns
  import opened NodeHistories
  import opened SpacedEpochs
  import Ctl = Coordination
  import Retention

  /** A step of the graph, or an event the controller handles. */
  datatype JointStep = InGraph(step: NetStep) | AtController(event: Ctl.Event)

  datatype Joint = Nothing | More(before: Joint, step: JointStep)

  function RunOf(j: Joint): Network.Run {
    match j
    case Nothing => Begin
    case More(before, InGraph(s)) => Then(RunOf(before), s)
    case More(before, AtController(_)) => RunOf(before)
  }

  function HistoryOf(j: Joint): Ctl.History {
    match j
    case Nothing => Ctl.Start
    case More(before, InGraph(_)) => HistoryOf(before)
    case More(before, AtController(ev)) => Ctl.After(HistoryOf(before), ev)
  }

  ghost function NetOf(g: System, j: Joint): Net
    requires Wired(g)
  {
    Final(g, RunOf(j))
  }

  /** The epochs initiated, in order. */
  function Initiated(h: Ctl.History): seq<nat> {
    if h.Start? then []
    else if h.event.Initiate? then Initiated(h.before) + [h.event.epoch]
    else Initiated(h.before)
  }

  function SnapEpochs(l: Local): seq<nat> {
    EpochsOf(BarriersOf(l.record.snapshots))
  }

  function OutEpochs(l: Local, k: nat): seq<nat>
    requires k < |l.outs|
  {
    EpochsOf(Barriers(l.outs[k]))
  }

  /** The node has taken a snapshot for the epoch; a source has put its barrier on all its outputs. */
  ghost predicate Took(g: System, net: Net, v: string, epoch: nat)
    requires NetShape(g, net)
  {
    && v in net
    && if InDegree(g.edges, v) > 0 then epoch in SnapEpochs(net[v])
       else forall k: nat :: k < |net[v].outs| ==> epoch in OutEpochs(net[v], k)
  }

  /** One of the node's snapshots is for this epoch and has these bytes. */
  ghost predicate HasSnapshot(l: Local, epoch: nat, state: Bytes) {
    exists q: nat :: q < |l.record.snapshots| && SnapshotIs(l.record.snapshots[q], epoch, state)
  }

  predicate SnapshotIs(s: Snapshot, epoch: nat, state: Bytes) {
    s.barrier.epoch == epoch && s.state == state
  }

  /** A node reports an epoch after its snapshot for it, with the bytes of that snapshot; a source after it has
      put the barrier on all its outputs. */
  ghost predicate MayReport(g: System, net: Net, v: string, epoch: nat, state: Bytes)
    requires NetShape(g, net)
  {
    Took(g, net, v, epoch) && (InDegree(g.edges, v) > 0 ==> HasSnapshot(net[v], epoch, state))
  }

  /** A source puts a barrier on an output only for an epoch that was initiated, and only once. */
  ghost predicate MayInject(g: System, net: Net, h: Ctl.History, s: NetStep)
    requires NetShape(g, net)
  {
    StepEnabled(g, net, s) && s.At? && s.step.SourceSend? && s.step.msg.Barrier? ==>
      && s.step.msg.barrier.epoch in Initiated(h)
      && s.step.msg.barrier.epoch !in OutEpochs(net[s.node], s.step.out)
  }

  /** The caller takes a new number for every epoch and waits until all earlier ones are complete. */
  ghost predicate MayInitiate(nodes: set<string>, h: Ctl.History, epoch: nat) {
    && epoch !in Initiated(h)
    && forall d :: d in Initiated(h) ==> Ctl.InfoOf(Ctl.Final(nodes, h), d).complete
  }

  ghost predicate StepAllowed(g: System, net: Net, h: Ctl.History, s: JointStep)
    requires NetShape(g, net)
  {
    match s
    case InGraph(step) => MayInject(g, net, h, step)
    case AtController(Initiate(epoch, _)) => MayInitiate(g.nodes, h, epoch)
    case AtController(Report(v, epoch, state)) => MayReport(g, net, v, epoch, state)
    case AtController(Stopped(v)) => v in g.nodes
  }

  ghost predicate Patient(g: System, j: Joint)
    requires Wired(g)
  {
    j.More? ==> Patient(g, j.before) && StepAllowed(g, NetOf(g, j.before), HistoryOf(j.before), j.step)
  }

  // ---------------------------------------------------------------- the invariant

  ghost predicate Distinct(es: seq<nat>) {
    forall a, b :: 0 <= a < b < |es| ==> es[a] != es[b]
  }

  /** What a report for an epoch proves about the reporting node. */
  ghost predicate ReportOk(g: System, net: Net, h: Ctl.History, v: string, epoch: nat) {
    NetShape(g, net) && (v in Ctl.Reporters(h, epoch) ==> Took(g, net, v, epoch))
  }

  /** A source's output carries the epochs in the order of their initiation. */
  ghost predicate OutOk(g: System, net: Net, h: Ctl.History, u: string, k: nat) {
    u in net && k < |net[u].outs| && OutEpochs(net[u], k) <= Initiated(h)
  }

  /** All nodes have reported all epochs but the last one initiated. */
  ghost predicate CallerOk(nodes: set<string>, h: Ctl.History) {
    && Distinct(Initiated(h))
    && forall i: nat :: i < |Initiated(h)| - 1 ==> nodes <= Ctl.Reporters(h, Initiated(h)[i])
  }

  ghost predicate JointOk(g: System, net: Net, h: Ctl.History) {
    && NetShape(g, net) && Ctl.FromGraph(g.nodes, h) && CallerOk(g.nodes, h)
    && (forall v, epoch :: v in net ==> ReportOk(g, net, h, v, epoch))
    && (forall u, k: nat :: u in net && InDegree(g.edges, u) == 0 && k < |net[u].outs| ==> OutOk(g, net, h, u, k))
  }

  // ---------------------------------------------------------------- controller events

  lemma CompleteIsReported(nodes: set<string>, h: Ctl.History, epoch: nat)
    requires Ctl.FromGraph(nodes, h) && nodes != {} && Ctl.InfoOf(Ctl.Final(nodes, h), epoch).complete
    ensures nodes <= Ctl.Reporters(h, epoch)
  {
    Ctl.EntriesOk(nodes, h, epoch);
    Ctl.LastReportsReported(h, epoch);
  }

  lemma CallerInitiates(nodes: set<string>, h: Ctl.History, epoch: nat, thenStop: bool)
    requires Ctl.FromGraph(nodes, h) && nodes != {} && CallerOk(nodes, h) && MayInitiate(nodes, h, epoch)
    ensures CallerOk(nodes, Ctl.After(h, Ctl.Initiate(epoch, thenStop)))
  {
    var h' := Ctl.After(h, Ctl.Initiate(epoch, thenStop));
    var es, es' := Initiated(h), Initiated(h');
    forall i: nat | i < |es'| - 1 ensures nodes <= Ctl.Reporters(h', es'[i]) {
      assert es'[i] == es[i] && es[i] in es;
      CompleteIsReported(nodes, h, es[i]);
    }
  }

  lemma ControllerStep(g: System, net: Net, h: Ctl.History, ev: Ctl.Event)
    requires JointOk(g, net, h) && g.nodes != {} && StepAllowed(g, net, h, AtController(ev))
    ensures JointOk(g, net, Ctl.After(h, ev))
  {
    var h' := Ctl.After(h, ev);
    if ev.Initiate? {
      CallerInitiates(g.nodes, h, ev.epoch, ev.thenStop);
    }
    assert Initiated(h) <= Initiated(h');
    forall v, epoch | v in net ensures ReportOk(g, net, h', v, epoch) {
      assert ReportOk(g, net, h, v, epoch);
    }
    forall u, k: nat | u in net && InDegree(g.edges, u) == 0 && k < |net[u].outs| ensures OutOk(g, net, h', u, k) {
      assert OutOk(g, net, h, u, k);
    }
  }

  // ---------------------------------------------------------------- steps of the graph

  lemma PrefixMisses(es: seq<nat>, all: seq<nat>, i: nat)
    requires es <= all && Distinct(all)
    ensures |es| <= i < |all| ==> all[i] !in es
  {
    assert forall a :: 0 <= a < |es| ==> es[a] == all[a];
  }

  /** A prefix of a list without repetition that has all but the last and lacks `e` lacks just the last. */
  lemma AllButLast(es: seq<nat>, all: seq<nat>, e: nat)
    requires es <= all && Distinct(all) && e in all && e !in es
    requires forall i: nat :: i < |all| - 1 ==> all[i] in es
    ensures es == all[..|all| - 1] && e == all[|all| - 1]
  {
    PrefixMisses(es, all, |es|);
  }

  /** So a source can only inject the epoch initiated last, and every earlier one is already there. */
  lemma InjectsLast(g: System, net: Net, h: Ctl.History, u: string, k: nat, e: nat)
    requires JointOk(g, net, h) && u in net && InDegree(g.edges, u) == 0 && k < |net[u].outs|
    requires e in Initiated(h) && e !in OutEpochs(net[u], k)
    ensures OutEpochs(net[u], k) + [e] == Initiated(h)
  {
    var es, all := OutEpochs(net[u], k), Initiated(h);
    assert OutOk(g, net, h, u, k);
    forall i: nat | i < |all| - 1 ensures all[i] in es {
      assert ReportOk(g, net, h, u, all[i]);
    }
    AllButLast(es, all, e);
  }

  lemma EpochsGrow(es: seq<nat>, es': seq<nat>, e: nat)
    requires es <= es' && e in es
    ensures e in es'
  {
    var i :| 0 <= i < |es| && es[i] == e;
    assert es'[i] == e;
  }

  /** What a node's step does to the epochs of its snapshots and outputs. */
  lemma EpochsKept(c: Config, l: Local, s: Step, k: nat)
    requires ShapeOk(c, l) && Enabled(c, l, s) && k < |l.outs|
    ensures SnapEpochs(l) <= SnapEpochs(Apply(c, l, s))
    ensures k < |Apply(c, l, s).outs| && OutEpochs(l, k) <= OutEpochs(Apply(c, l, s), k)
  {
    SnapshotsKept(c, l, s);
    EpochsPrefix(BarriersOf(l.record.snapshots), BarriersOf(Apply(c, l, s).record.snapshots));
    PromisedGrows(c, l, s, k);
    BarriersPrefix(l.outs[k], Apply(c, l, s).outs[k]);
    EpochsPrefix(Barriers(l.outs[k]), Barriers(Apply(c, l, s).outs[k]));
  }

  lemma SourceEpochs(c: Config, l: Local, s: Step, k: nat)
    requires ShapeOk(c, l) && c.inputs == 0 && Enabled(c, l, s) && k < c.outputs
    ensures k < |Apply(c, l, s).outs|
    ensures if s.SourceSend? && s.out == k && s.msg.Barrier?
            then OutEpochs(Apply(c, l, s), k) == OutEpochs(l, k) + [s.msg.barrier.epoch]
            else OutEpochs(Apply(c, l, s), k) == OutEpochs(l, k)
  {
    SourceStep(c, l, s, k);
    if s.SourceSend? && s.out == k && s.msg.Barrier? {
      BarriersSnoc(l.outs[k], s.msg);
    }
  }

  lemma ReportsStay(g: System, net: Net, h: Ctl.History, s: NetStep, v: string, epoch: nat)
    requires JointOk(g, net, h) && StepEnabled(g, net, s) && v in net && NodeSound(g, net, v)
    ensures v in Next(g, net, s) && ReportOk(g, Next(g, net, s), h, v, epoch)
  {
    var net' := Next(g, net, s);
    NextShape(g, net, s);
    assert ReportOk(g, net, h, v, epoch);
    if Actor(g, net, s) == v && v in Ctl.Reporters(h, epoch) {
      var c, a := ConfigOf(g, v), Action(g, net, s);
      if InDegree(g.edges, v) > 0 {
        SnapshotsKept(c, net[v], a);
        EpochsPrefix(BarriersOf(net[v].record.snapshots), BarriersOf(net'[v].record.snapshots));
        EpochsGrow(SnapEpochs(net[v]), SnapEpochs(net'[v]), epoch);
      } else {
        forall k: nat | k < |net'[v].outs| ensures epoch in OutEpochs(net'[v], k) {
          EpochsKept(c, net[v], a, k);
          EpochsGrow(OutEpochs(net[v], k), OutEpochs(net'[v], k), epoch);
        }
      }
    }
  }

  lemma SourceOutput(c: Config, l: Local, s: Step, k: nat, all: seq<nat>)
    requires ShapeOk(c, l) && c.inputs == 0 && Enabled(c, l, s) && k < c.outputs && OutEpochs(l, k) <= all
    requires s.SourceSend? && s.out == k && s.msg.Barrier? ==> OutEpochs(l, k) + [s.msg.barrier.epoch] == all
    ensures k < |Apply(c, l, s).outs| && OutEpochs(Apply(c, l, s), k) <= all
  {
    SourceEpochs(c, l, s, k);
  }

  /** What MayInject says about a source's own step. */
  lemma InjectionFits(g: System, net: Net, h: Ctl.History, s: NetStep, u: string, k: nat)
    requires JointOk(g, net, h) && StepEnabled(g, net, s) && MayInject(g, net, h, s) && Actor(g, net, s) == u
    requires u in net && InDegree(g.edges, u) == 0 && k < |net[u].outs|
    ensures var a := Action(g, net, s);
            a.SourceSend? && a.out == k && a.msg.Barrier? ==>
                  OutEpochs(net[u], k) + [a.msg.barrier.epoch] == Initiated(h)
  {
    var a := Action(g, net, s);
    if a.SourceSend? && a.out == k && a.msg.Barrier? {
      InjectsLast(g, net, h, u, k, a.msg.barrier.epoch);
    }
  }

  lemma ActorOutputs(g: System, net: Net, h: Ctl.History, s: NetStep, u: string, k: nat)
    requires JointOk(g, net, h) && StepEnabled(g, net, s) && MayInject(g, net, h, s) && Actor(g, net, s) == u
    requires u in net && NodeSound(g, net, u) && InDegree(g.edges, u) == 0 && k < |net[u].outs|
    ensures var l' := Apply(ConfigOf(g, u), net[u], Action(g, net, s));
            k < |l'.outs| && OutEpochs(l', k) <= Initiated(h)
  {
    assert OutOk(g, net, h, u, k);
    InjectionFits(g, net, h, s, u, k);
    SourceOutput(ConfigOf(g, u), net[u], Action(g, net, s), k, Initiated(h));
  }

  lemma OutputsStay(g: System, net: Net, h: Ctl.History, s: NetStep, u: string, k: nat)
    requires JointOk(g, net, h) && StepEnabled(g, net, s) && MayInject(g, net, h, s)
    requires u in net && NodeSound(g, net, u) && InDegree(g.edges, u) == 0 && k < |net[u].outs|
    ensures OutOk(g, Next(g, net, s), h, u, k)
  {
    if Actor(g, net, s) == u {
      ActorOutputs(g, net, h, s, u, k);
    } else {
      assert OutOk(g, net, h, u, k);
    }
  }

  lemma GraphStep(g: System, net: Net, h: Ctl.History, s: NetStep, net': Net)
    requires JointOk(g, net, h) && Sound(g, net) && MayInject(g, net, h, s)
    requires net' == if StepEnabled(g, net, s) then Next(g, net, s) else net
    ensures JointOk(g, net', h)
  {
    if StepEnabled(g, net, s) {
      NextShape(g, net, s);
      forall v, epoch | v in net' ensures ReportOk(g, net', h, v, epoch) {
        ReportsStay(g, net, h, s, v, epoch);
      }
      forall u, k: nat | u in net' && InDegree(g.edges, u) == 0 && k < |net'[u].outs| ensures OutOk(g, net', h, u, k) {
        OutputsStay(g, net, h, s, u, k);
      }
    }
  }

  lemma JointStart(g: System)
    requires Wired(g)
    ensures JointOk(g, Start(g), Ctl.Start)
  {
    StartShape(g);
  }

  lemma {:induction false} PatientOk(g: System, j: Joint)
    requires Wired(g) && g.nodes != {} && Patient(g, j)
    ensures JointOk(g, NetOf(g, j), HistoryOf(j))
  {
    match j {
      case Nothing => JointStart(g);
      case More(before, s) =>
        PatientOk(g, before);
        match s {
          case InGraph(step) =>
            FinalNext(g, RunOf(before), step);
            Reachable(g, RunOf(before));
            GraphStep(g, NetOf(g, before), HistoryOf(before), step, NetOf(g, j));
          case AtController(ev) => ControllerStep(g, NetOf(g, before), HistoryOf(before), ev);
        }
    }
  }

  lemma FinalNext(g: System, q: Network.Run, s: NetStep)
    requires Wired(g)
    ensures Final(g, Then(q, s)) == if StepEnabled(g, Final(g, q), s) then Next(g, Final(g, q), s) else Final(g, q)
  {
  }

  // ---------------------------------------------------------------- patience spaces the epochs out

  /** As many different numbers need at least as many places. */
  lemma Pigeonhole(ds: seq<nat>, es: seq<nat>)
    requires Distinct(ds) && forall i :: 0 <= i < |ds| ==> ds[i] in es
    ensures |ds| <= |es|
  {
    var elements := set x | x in es;
    DistinctFit(ds, elements);
    ElementsFit(es, elements);
  }

  lemma PatientMayTake(g: System, net: Net, h: Ctl.History, s: NetStep)
    requires JointOk(g, net, h) && MayInject(g, net, h, s)
    ensures MayTake(g, net, s)
  {
    if StepEnabled(g, net, s) && s.At? && s.step.SourceSend? && s.step.msg.Barrier? {
      var u, k, all := s.node, s.step.out, Initiated(h);
      var es := OutEpochs(net[u], k);
      InjectsLast(g, net, h, u, k, s.step.msg.barrier.epoch);
      forall v | v in g.nodes && InDegree(g.edges, v) > 0 ensures |Barriers(net[u].outs[k])| <= Snaps(net, v) {
        forall i | 0 <= i < |es| ensures es[i] in SnapEpochs(net[v]) {
          assert es[i] == all[i];
          assert ReportOk(g, net, h, v, all[i]);
        }
        assert forall a, b :: 0 <= a < b < |es| ==> es[a] == all[a] && es[b] == all[b];
        Pigeonhole(es, SnapEpochs(net[v]));
      }
    }
  }

  /** Waiting for completion spaces the epochs out. */
  lemma {:induction false} PatientIsSpaced(g: System, j: Joint)
    requires Wired(g) && g.nodes != {} && Patient(g, j)
    ensures Spaced(g, RunOf(j))
  {
    match j {
      case Nothing =>
      case More(before, s) =>
        PatientIsSpaced(g, before);
        if s.InGraph? {
          PatientOk(g, before);
          PatientMayTake(g, NetOf(g, before), HistoryOf(before), s.step);
        }
    }
  }

  lemma PatientSourcesAgree(g: System, j: Joint)
    requires Wired(g) && g.nodes != {} && Patient(g, j)
    ensures SourcesAgree(g, NetOf(g, j), Initiated(HistoryOf(j)))
  {
    PatientOk(g, j);
    forall k: nat | k < |g.edges| && InDegree(g.edges, g.edges[k].fromNode) == 0
      ensures EpochsOf(Barriers(Sent(g, NetOf(g, j), k))) <= Initiated(HistoryOf(j))
    {
      PositionsInRange(g.edges, k);
      assert OutOk(g, NetOf(g, j), HistoryOf(j), g.edges[k].fromNode, OutPos(g.edges, k));
    }
  }

  /** Every node's `q`-th snapshot is for the `q`-th epoch initiated. */
  lemma SnapshotsFollowTheController(g: System, j: Joint, v: string, q: nat)
    requires Wired(g) && Patient(g, j) && v in g.nodes && InDegree(g.edges, v) > 0
    requires q < |Snapshots(g, RunOf(j), v)|
    ensures q < |Initiated(HistoryOf(j))| && Snapshots(g, RunOf(j), v)[q].barrier.epoch == Initiated(HistoryOf(j))[q]
  {
    PatientIsSpaced(g, j);
    PatientSourcesAgree(g, j);
    SnapshotsAgree(g, RunOf(j), Initiated(HistoryOf(j)), v, q);
  }

  /** One cut for each epoch. Across every edge between nodes with inputs, the two snapshots for an epoch fit
      together: the receiver has consumed what the sender had put on the edge before its own snapshot for the
      same epoch, followed by what was held back in that alignment. */
  lemma OneCutPerEpoch(g: System, j: Joint, k: nat, q: nat)
    requires Wired(g) && Patient(g, j) && k < |g.edges| && InDegree(g.edges, g.edges[k].fromNode) > 0
    requires q < |Snapshots(g, RunOf(j), g.edges[k].toNode)|
    ensures var mine, theirs := Snapshots(g, RunOf(j), g.edges[k].toNode), Snapshots(g, RunOf(j), g.edges[k].fromNode);
            var i, o := InPos(g.edges, k), OutPos(g.edges, k);
            && q < |theirs| && o < |theirs[q].sentBefore|
            && mine[q].barrier.epoch == theirs[q].barrier.epoch
            && Stream(mine[q].consumed, i) == Payload(theirs[q].sentBefore[o]) + Stream(mine[q].heldBack, i)
  {
    PatientIsSpaced(g, j);
    SpacedConsistentCut(g, RunOf(j), k, q);
    PositionsInRange(g.edges, k);
    SnapshotsFollowTheController(g, j, g.edges[k].fromNode, q);
    SnapshotsFollowTheController(g, j, g.edges[k].toNode, q);
  }

  /** The same on every edge of the graph, those out of sources included: the cut at the edge's own barrier for
      the epoch. */
  lemma OneCutOnEveryEdge(g: System, j: Joint, k: nat, q: nat)
    requires Wired(g) && Patient(g, j) && k < |g.edges| && q < |Snapshots(g, RunOf(j), g.edges[k].toNode)|
    ensures CutFits(g, RunOf(j), k, q) && q < |Initiated(HistoryOf(j))|
    ensures Barriers(Sent(g, NetOf(g, j), k))[q].epoch == Initiated(HistoryOf(j))[q]
    ensures Snapshots(g, RunOf(j), g.edges[k].toNode)[q].barrier.epoch == Initiated(HistoryOf(j))[q]
  {
    var sent, all := Sent(g, NetOf(g, j), k), Initiated(HistoryOf(j));
    PositionsInRange(g.edges, k);
    PatientIsSpaced(g, j);
    PatientSourcesAgree(g, j);
    NothingIsSwallowed(g, RunOf(j), g.edges[k].toNode);
    CutOnEveryEdge(g, RunOf(j), k, q);
    SnapshotsFollowTheController(g, j, g.edges[k].toNode, q);
    EdgesAgree(g, RunOf(j), all);
    assert EdgeAgrees(g, NetOf(g, j), all, k);
    assert EpochsOf(Barriers(sent))[q] == Barriers(sent)[q].epoch;
  }

  // ---------------------------------------------------------------- what is stored is a cut

  lemma SnapshotStays(l: Local, l': Local, epoch: nat, state: Bytes)
    requires l.record.snapshots <= l'.record.snapshots && HasSnapshot(l, epoch, state)
    ensures HasSnapshot(l', epoch, state)
  {
    var q: nat :| q < |l.record.snapshots| && SnapshotIs(l.record.snapshots[q], epoch, state);
    assert SnapshotIs(l'.record.snapshots[q], epoch, state);
  }

  lemma SnapshotsOnlyGrow(g: System, q: Network.Run, s: NetStep, v: string)
    requires Wired(g) && v in g.nodes
    ensures Snapshots(g, q, v) <= Snapshots(g, Then(q, s), v)
  {
    FinalNext(g, q, s);
    var net := Final(g, q);
    if StepEnabled(g, net, s) && Actor(g, net, s) == v {
      SnapshotsKept(ConfigOf(g, v), net[v], Action(g, net, s));
    }
  }

  /** The bytes of a node's last report for an epoch are those of one of its snapshots for it. */
  lemma {:induction false} ReportsAreSnapshots(g: System, j: Joint, v: string, epoch: nat)
    requires Wired(g) && Patient(g, j) && v in g.nodes && InDegree(g.edges, v) > 0
    requires v in Ctl.LastReports(HistoryOf(j), epoch)
    ensures HasSnapshot(NetOf(g, j)[v], epoch, Ctl.LastReports(HistoryOf(j), epoch)[v])
  {
    var before := j.before;
    match j.step {
      case InGraph(s) =>
        ReportsAreSnapshots(g, before, v, epoch);
        SnapshotsOnlyGrow(g, RunOf(before), s, v);
        SnapshotStays(NetOf(g, before)[v], NetOf(g, j)[v], epoch, Ctl.LastReports(HistoryOf(j), epoch)[v]);
      case AtController(ev) =>
        if !(ev.Report? && ev.node == v && ev.epoch == epoch) {
          ReportsAreSnapshots(g, before, v, epoch);
        }
    }
  }

  lemma {:induction false} CompletedAreSnapshots(g: System, j: Joint, epoch: nat, states: Ctl.States, v: string)
    requires Wired(g) && Patient(g, j) && v in g.nodes && InDegree(g.edges, v) > 0
    requires Ctl.CompletedWith(g.nodes, HistoryOf(j), epoch, states) && v in states
    ensures HasSnapshot(NetOf(g, j)[v], epoch, states[v])
  {
    var before := j.before;
    match j.step {
      case InGraph(s) =>
        CompletedAreSnapshots(g, before, epoch, states, v);
        SnapshotsOnlyGrow(g, RunOf(before), s, v);
        SnapshotStays(NetOf(g, before)[v], NetOf(g, j)[v], epoch, states[v]);
      case AtController(ev) =>
        if Ctl.CompletedWith(g.nodes, HistoryOf(before), epoch, states) {
          CompletedAreSnapshots(g, before, epoch, states, v);
        } else {
          ReportsAreSnapshots(g, j, v, epoch);
        }
    }
  }

  /** The node's bytes in a checkpoint are those of its `q`-th snapshot, where the epoch was the `q`-th initiated. */
  ghost predicate StoredIsSnapshot(g: System, j: Joint, epoch: nat, states: Ctl.States, v: string, q: nat)
    requires Wired(g) && v in g.nodes
  {
    && q < |Snapshots(g, RunOf(j), v)| && v in states
    && SnapshotIs(Snapshots(g, RunOf(j), v)[q], epoch, states[v])
  }

  /** The node's bytes in a checkpoint are those its HandleCheckpoint gave when called for the `q`-th time. */
  ghost predicate StoredIsGiven(g: System, j: Joint, states: Ctl.States, v: string, q: nat)
    requires Wired(g)
  {
    var given := BytesGiven(StepsOf(g, RunOf(j), v));
    q < |given| && v in states && states[v] == given[q]
  }

  lemma StoredState(g: System, j: Joint, epoch: nat, states: Ctl.States, v: string) returns (q: nat)
    requires Wired(g) && Patient(g, j) && v in g.nodes && InDegree(g.edges, v) > 0
    requires Ctl.CompletedWith(g.nodes, HistoryOf(j), epoch, states) && v in states
    ensures StoredIsSnapshot(g, j, epoch, states, v, q)
    ensures q < |Initiated(HistoryOf(j))| && Initiated(HistoryOf(j))[q] == epoch
  {
    CompletedAreSnapshots(g, j, epoch, states, v);
    q :| q < |Snapshots(g, RunOf(j), v)| && SnapshotIs(Snapshots(g, RunOf(j), v)[q], epoch, states[v]);
    SnapshotsFollowTheController(g, j, v, q);
  }

  /** A stored checkpoint is a consistent cut. With the controller and the checkpoint manager of the program and a
      caller who waits, the bytes stored for the `q`-th epoch are, for every node with inputs, those that its
      HandleCheckpoint gave when called for the `q`-th time, which was for the snapshot of that epoch; and these
      snapshots fit together across every edge of the graph. */
  lemma StoredEpochIsACut(g: System, j: Joint, keepCount: int, data: Retention.Stored, epoch: nat) returns (q: nat)
    requires Wired(g) && Patient(g, j) && g.edges != []
    requires Retention.Persisted(Ctl.Calls(g.nodes, HistoryOf(j)), keepCount, data) && epoch in data
    ensures q < |Initiated(HistoryOf(j))| && Initiated(HistoryOf(j))[q] == epoch && data[epoch].Keys == g.nodes
    ensures forall v :: v in g.nodes && InDegree(g.edges, v) > 0 ==> StoredIsSnapshot(g, j, epoch, data[epoch], v, q)
    ensures forall v :: v in g.nodes && InDegree(g.edges, v) > 0 ==> StoredIsGiven(g, j, data[epoch], v, q)
    ensures forall k: nat :: k < |g.edges| ==> CutFits(g, RunOf(j), k, q)
  {
    var h, states := HistoryOf(j), data[epoch];
    assert g.edges[0].fromNode in g.nodes;
    PatientOk(g, j);
    Retention.SavedAreReported(g.nodes, h, keepCount, data);
    Retention.CompletedIsFull(g.nodes, h, epoch, states);
    PositionsInRange(g.edges, 0);
    q := StoredState(g, j, epoch, states, g.edges[0].toNode);
    forall v | v in g.nodes && InDegree(g.edges, v) > 0 ensures StoredIsSnapshot(g, j, epoch, states, v, q) {
      var p := StoredState(g, j, epoch, states, v);
      DistinctIndex(Initiated(h), p, q);
    }
    forall v | v in g.nodes && InDegree(g.edges, v) > 0 ensures StoredIsGiven(g, j, states, v, q) {
      assert StoredIsSnapshot(g, j, epoch, states, v, q);
      SnapshotsHoldBytes(g, RunOf(j), v);
    }
    forall k: nat | k < |g.edges| ensures CutFits(g, RunOf(j), k, q) {
      PositionsInRange(g.edges, k);
      assert StoredIsSnapshot(g, j, epoch, states, g.edges[k].toNode, q);
      OneCutOnEveryEdge(g, j, k, q);
    }
  }

  lemma DistinctIndex(es: seq<nat>, p: nat, q: nat)
    requires Distinct(es) && p < |es| && q < |es| && es[p] == es[q]
    ensures p == q
  {
  }
}
