/** The controller that tracks checkpoints and detects quiescence (internal/engine/controller.go). */
module Coordination {
  import opened Collections
  import opened Codecs

  type States = map<string, Bytes>

  datatype Info = Info(complete: bool, completedNodes: set<string>, nodeStates: States, thenStop: bool)

  datatype Ctl = Ctl(checkpoints: map<nat, Info>, stopped: set<string>, quiescent: bool)

  datatype Event =
    | Initiate(epoch: nat, thenStop: bool)
    | Report(node: string, epoch: nat, state: Bytes)
    | Stopped(node: string)

  /** The callbacks. */
  datatype Call = Completed(epoch: nat, states: States) | Quiescence

  datatype Tick = Tick(ctl: Ctl, calls: seq<Call>)

  function Fresh(thenStop: bool): Info {
    Info(false, {}, map[], thenStop)
  }

  function Track(c: Ctl, epoch: nat, info: Info): Ctl {
    Ctl(c.checkpoints[epoch := info], c.stopped, c.quiescent)
  }

  predicate SomeComplete(checkpoints: map<nat, Info>) {
    exists e :: e in checkpoints && checkpoints[e].complete
  }

  function Check(nodes: set<string>, c: Ctl): Tick {
    if !c.quiescent && |c.stopped| >= |nodes| && SomeComplete(c.checkpoints) then
      Tick(Ctl(c.checkpoints, c.stopped, true), [Quiescence])
    else Tick(c, [])
  }

  /** An epoch nobody initiated is tracked from its first report on. */
  function InfoOf(c: Ctl, epoch: nat): Info {
    if epoch in c.checkpoints then c.checkpoints[epoch] else Fresh(false)
  }

  function OnReport(nodes: set<string>, c: Ctl, node: string, epoch: nat, state: Bytes): Tick {
    var info := InfoOf(c, epoch);
    if info.complete then Tick(c, [])
    else
      var completed, states := info.completedNodes + {node}, info.nodeStates[node := state];
      if |completed| != |nodes| then Tick(Track(c, epoch, Info(false, completed, states, info.thenStop)), [])
      else
        var t := Check(nodes, Track(c, epoch, Info(true, completed, states, info.thenStop)));
        Tick(t.ctl, [Completed(epoch, states)] + t.calls)
  }

  function OnEvent(nodes: set<string>, c: Ctl, ev: Event): Tick {
    match ev
    case Initiate(epoch, thenStop) => Tick(Track(c, epoch, Fresh(thenStop)), [])
    case Report(node, epoch, state) => OnReport(nodes, c, node, epoch, state)
    case Stopped(node) => Check(nodes, Ctl(c.checkpoints, c.stopped + {node}, c.quiescent))
  }

  /** Each method takes the lock, so calls are atomic. */
  class Controller {
    const nodeIDs: set<string>
    var checkpoints: map<nat, Info>
    var stoppedNodes: set<string>
    var quiescent: bool

    constructor (nodeIDs: set<string>)
      ensures this.nodeIDs == nodeIDs && Now() == Ctl(map[], {}, false)
    {
      this.nodeIDs := nodeIDs;
      checkpoints, stoppedNodes, quiescent := map[], {}, false;
    }

    ghost function Now(): Ctl
      reads this
    {
      Ctl(checkpoints, stoppedNodes, quiescent)
    }

    method InitiateCheckpoint(epoch: nat, thenStop: bool)
      modifies this
      ensures Tick(Now(), []) == OnEvent(nodeIDs, old(Now()), Initiate(epoch, thenStop))
    {
      checkpoints := checkpoints[epoch := Info(false, {}, map[], thenStop)];
    }

    method HandleCompletion(node: string, epoch: nat, state: Bytes) returns (calls: seq<Call>)
      modifies this
      ensures Tick(Now(), calls) == OnEvent(nodeIDs, old(Now()), Report(node, epoch, state))
    {
      if epoch !in checkpoints {
        checkpoints := checkpoints[epoch := Info(false, {}, map[], false)];
      }
      var info := checkpoints[epoch];
      if info.complete {
        return [];
      }
      info := info.(completedNodes := info.completedNodes + {node}, nodeStates := info.nodeStates[node := state]);
      checkpoints := checkpoints[epoch := info];
      if |info.completedNodes| == |nodeIDs| {
        checkpoints := checkpoints[epoch := info.(complete := true)];
        assert checkpoints == Track(old(Now()), epoch, info.(complete := true)).checkpoints;
        calls := [Completed(epoch, info.nodeStates)];
        var more := CheckQuiescence();
        calls := calls + more;
      } else {
        assert checkpoints == Track(old(Now()), epoch, info).checkpoints;
        calls := [];
      }
    }

    method HandleNodeStopped(node: string) returns (calls: seq<Call>)
      modifies this
      ensures Tick(Now(), calls) == OnEvent(nodeIDs, old(Now()), Stopped(node))
    {
      stoppedNodes := stoppedNodes + {node};
      calls := CheckQuiescence();
    }

    method CheckQuiescence() returns (calls: seq<Call>)
      modifies this
      ensures Tick(Now(), calls) == Check(nodeIDs, old(Now()))
    {
      if quiescent {
        return [];
      }
      if |stoppedNodes| < |nodeIDs| {
        return [];
      }
      var hasCompleted := false;
      var todo := checkpoints.Keys;
      while todo != {} && !hasCompleted
        invariant todo <= checkpoints.Keys && Now() == old(Now())
        invariant hasCompleted ==> SomeComplete(checkpoints)
        invariant !hasCompleted ==> forall e :: e in checkpoints && e !in todo ==> !checkpoints[e].complete
        decreases todo
      {
        var e :| e in todo;
        hasCompleted := checkpoints[e].complete;
        todo := todo - {e};
      }
      if !hasCompleted {
        return [];
      }
      quiescent := true;
      return [Quiescence];
    }
  }

  // ---------------------------------------------------------------- histories

  datatype History = Start | After(before: History, event: Event)

  ghost function Final(nodes: set<string>, h: History): Ctl {
    if h.Start? then Ctl(map[], {}, false) else OnEvent(nodes, Final(nodes, h.before), h.event).ctl
  }

  ghost function Calls(nodes: set<string>, h: History): seq<Call> {
    if h.Start? then [] else Calls(nodes, h.before) + OnEvent(nodes, Final(nodes, h.before), h.event).calls
  }

  /** Only the graph's nodes report. */
  ghost predicate FromGraph(nodes: set<string>, h: History) {
    h.After? ==> FromGraph(nodes, h.before) && (h.event.Initiate? || h.event.node in nodes)
  }

  /** No epoch is initiated after a report for it. */
  ghost predicate WellTimed(h: History) {
    h.After? ==> WellTimed(h.before) && (h.event.Initiate? ==> Reporters(h.before, h.event.epoch) == {})
  }

  function StoppedNodes(h: History): set<string> {
    if h.Start? then {}
    else if h.event.Stopped? then StoppedNodes(h.before) + {h.event.node}
    else StoppedNodes(h.before)
  }

  /** Who has reported the epoch. */
  function Reporters(h: History, epoch: nat): set<string> {
    if h.Start? then {}
    else if h.event.Report? && h.event.epoch == epoch then Reporters(h.before, epoch) + {h.event.node}
    else Reporters(h.before, epoch)
  }

  /** The last report of each node for the epoch since the epoch was last initiated. */
  function LastReports(h: History, epoch: nat): States {
    if h.Start? then map[]
    else if h.event.Stopped? || h.event.epoch != epoch then LastReports(h.before, epoch)
    else if h.event.Initiate? then map[]
    else LastReports(h.before, epoch)[h.event.node := h.event.state]
  }

  ghost predicate Reported(nodes: set<string>, h: History, epoch: nat) {
    LastReports(h, epoch).Keys == nodes
  }

  ghost predicate Ready(nodes: set<string>, h: History) {
    StoppedNodes(h) == nodes && exists e :: Reported(nodes, h, e)
  }

  /** Ready now or at some earlier point of the history. */
  ghost predicate WasReady(nodes: set<string>, h: History) {
    Ready(nodes, h) || (h.After? && WasReady(nodes, h.before))
  }

  // ---------------------------------------------------------------- what the entries mean

  ghost predicate EntryOk(nodes: set<string>, info: Info, last: States) {
    && info.completedNodes == info.nodeStates.Keys == last.Keys <= nodes
    && (info.complete <==> last.Keys == nodes)
    && (!info.complete ==> info.nodeStates == last)
  }

  lemma ReportEntry(nodes: set<string>, c: Ctl, node: string, epoch: nat, state: Bytes, last: States)
    requires node in nodes && EntryOk(nodes, InfoOf(c, epoch), last)
    ensures EntryOk(nodes, InfoOf(OnReport(nodes, c, node, epoch, state).ctl, epoch), last[node := state])
    ensures forall e :: e != epoch ==> InfoOf(OnReport(nodes, c, node, epoch, state).ctl, e) == InfoOf(c, e)
    ensures last[node := state].Keys == nodes != last.Keys ==>
              Completed(epoch, last[node := state]) in OnReport(nodes, c, node, epoch, state).calls
    ensures forall call :: call in OnReport(nodes, c, node, epoch, state).calls && call.Completed? ==>
              call == Completed(epoch, last[node := state]) && last[node := state].Keys == nodes != last.Keys
  {
    var info := InfoOf(c, epoch);
    assert last[node := state].Keys == last.Keys + {node};
    SubsetSize(info.completedNodes + {node}, nodes);
    if info.complete {
      assert last[node := state].Keys == nodes;
    }
  }

  lemma {:induction false} EntriesOk(nodes: set<string>, h: History, epoch: nat)
    requires FromGraph(nodes, h) && nodes != {}
    ensures EntryOk(nodes, InfoOf(Final(nodes, h), epoch), LastReports(h, epoch))
  {
    if h.Start? {
    } else {
      EntriesOk(nodes, h.before, epoch);
      var c := Final(nodes, h.before);
      if h.event.Report? {
        EntriesOk(nodes, h.before, h.event.epoch);
        ReportEntry(nodes, c, h.event.node, h.event.epoch, h.event.state, LastReports(h.before, h.event.epoch));
      }
    }
  }

  /** The reports that an entry keeps: the last ones, until those of all nodes are in; later ones are ignored. */
  ghost function KeptReports(nodes: set<string>, h: History, epoch: nat): States {
    if h.Start? then map[]
    else if h.event.Stopped? || h.event.epoch != epoch then KeptReports(nodes, h.before, epoch)
    else if h.event.Initiate? then map[]
    else if Reported(nodes, h.before, epoch) then KeptReports(nodes, h.before, epoch)
    else LastReports(h, epoch)
  }

  /** Whether the epoch was last initiated to stop the pipeline. */
  function StopsAfter(h: History, epoch: nat): bool {
    if h.Start? then false
    else if h.event.Initiate? && h.event.epoch == epoch then h.event.thenStop
    else StopsAfter(h.before, epoch)
  }

  lemma ReportKeeps(nodes: set<string>, c: Ctl, node: string, epoch: nat, state: Bytes)
    ensures var info, info' := InfoOf(c, epoch), InfoOf(OnReport(nodes, c, node, epoch, state).ctl, epoch);
            && info'.thenStop == info.thenStop
            && info'.nodeStates == if info.complete then info.nodeStates else info.nodeStates[node := state]
    ensures forall e :: e != epoch ==> InfoOf(OnReport(nodes, c, node, epoch, state).ctl, e) == InfoOf(c, e)
  {
  }

  lemma ReportEntryKeeps(nodes: set<string>, h: History, epoch: nat)
    requires FromGraph(nodes, h) && nodes != {} && h.After? && h.event.Report? && h.event.epoch == epoch
    requires EntryOk(nodes, InfoOf(Final(nodes, h.before), epoch), LastReports(h.before, epoch))
    requires InfoOf(Final(nodes, h.before), epoch).nodeStates == KeptReports(nodes, h.before, epoch)
    ensures InfoOf(Final(nodes, h), epoch).nodeStates == KeptReports(nodes, h, epoch)
    ensures InfoOf(Final(nodes, h), epoch).thenStop == InfoOf(Final(nodes, h.before), epoch).thenStop
  {
    ReportKeeps(nodes, Final(nodes, h.before), h.event.node, epoch, h.event.state);
  }

  lemma EntryKeepsNext(nodes: set<string>, h: History, epoch: nat)
    requires FromGraph(nodes, h) && nodes != {} && h.After?
    requires EntryOk(nodes, InfoOf(Final(nodes, h.before), epoch), LastReports(h.before, epoch))
    requires InfoOf(Final(nodes, h.before), epoch).nodeStates == KeptReports(nodes, h.before, epoch)
    requires InfoOf(Final(nodes, h.before), epoch).thenStop == StopsAfter(h.before, epoch)
    ensures InfoOf(Final(nodes, h), epoch).nodeStates == KeptReports(nodes, h, epoch)
    ensures InfoOf(Final(nodes, h), epoch).thenStop == StopsAfter(h, epoch)
  {
    if h.event.Report? {
      if h.event.epoch == epoch {
        ReportEntryKeeps(nodes, h, epoch);
      } else {
        ReportKeeps(nodes, Final(nodes, h.before), h.event.node, h.event.epoch, h.event.state);
      }
    }
  }

  /** The whole of an entry: besides who has reported, the states kept and what it was initiated for. */
  lemma {:induction false} EntryKeeps(nodes: set<string>, h: History, epoch: nat)
    requires FromGraph(nodes, h) && nodes != {}
    ensures InfoOf(Final(nodes, h), epoch).nodeStates == KeptReports(nodes, h, epoch)
    ensures InfoOf(Final(nodes, h), epoch).thenStop == StopsAfter(h, epoch)
  {
    if h.Start? {
    } else {
      EntryKeeps(nodes, h.before, epoch);
      EntriesOk(nodes, h.before, epoch);
      EntryKeepsNext(nodes, h, epoch);
    }
  }

  lemma {:induction false} StoppedOk(nodes: set<string>, h: History)
    requires FromGraph(nodes, h)
    ensures Final(nodes, h).stopped == StoppedNodes(h) <= nodes
  {
    if h.Start? {
    } else {
      StoppedOk(nodes, h.before);
    }
  }

  lemma CompleteIffReported(nodes: set<string>, h: History)
    requires FromGraph(nodes, h) && nodes != {}
    ensures SomeComplete(Final(nodes, h).checkpoints) <==> exists e :: Reported(nodes, h, e)
  {
    var c := Final(nodes, h);
    if SomeComplete(c.checkpoints) {
      var e :| e in c.checkpoints && c.checkpoints[e].complete;
      EntriesOk(nodes, h, e);
      assert Reported(nodes, h, e);
    }
    if e :| Reported(nodes, h, e) {
      EntriesOk(nodes, h, e);
      assert c.checkpoints[e].complete;
    }
  }

  // ---------------------------------------------------------------- quiescence

  lemma ReadyMeaning(nodes: set<string>, h: History)
    requires FromGraph(nodes, h) && nodes != {}
    ensures Ready(nodes, h) <==> CtlReady(nodes, Final(nodes, h))
  {
    StoppedOk(nodes, h);
    SubsetSize(StoppedNodes(h), nodes);
    CompleteIffReported(nodes, h);
  }

  /** Whatever is initiated when, the controller is quiescent exactly from the first moment on at which
      all nodes have stopped and all have reported some epoch since its last initiation. */
  lemma {:induction false} QuiescentFromReadyOn(nodes: set<string>, h: History)
    requires FromGraph(nodes, h) && nodes != {}
    ensures Final(nodes, h).quiescent <==> WasReady(nodes, h)
  {
    ReadyMeaning(nodes, h);
    if h.Start? {
    } else {
      QuiescentFromReadyOn(nodes, h.before);
      ReadyMeaning(nodes, h.before);
      StepChecks(nodes, Final(nodes, h.before), h.event);
    }
  }

  ghost predicate CtlReady(nodes: set<string>, c: Ctl) {
    |c.stopped| >= |nodes| && SomeComplete(c.checkpoints)
  }

  /** Every step that can make the controller ready checks. */
  lemma StepChecks(nodes: set<string>, c: Ctl, ev: Event)
    requires CtlReady(nodes, c) ==> c.quiescent
    ensures OnEvent(nodes, c, ev).ctl.quiescent <==> c.quiescent || CtlReady(nodes, OnEvent(nodes, c, ev).ctl)
  {
    var c' := OnEvent(nodes, c, ev).ctl;
    if SomeComplete(c'.checkpoints) {
      var e :| e in c'.checkpoints && c'.checkpoints[e].complete;
      assert e in c.checkpoints && c.checkpoints[e].complete ==> SomeComplete(c.checkpoints);
    }
  }

  lemma {:induction false} LastReportsReported(h: History, epoch: nat)
    ensures LastReports(h, epoch).Keys <= Reporters(h, epoch)
  {
    if h.Start? {
    } else {
      LastReportsReported(h.before, epoch);
    }
  }

  lemma {:induction false} LastReportsKeys(nodes: set<string>, h: History, epoch: nat)
    requires WellTimed(h)
    ensures LastReports(h, epoch).Keys == Reporters(h, epoch)
  {
    if h.Start? {
    } else {
      LastReportsKeys(nodes, h.before, epoch);
    }
  }

  /** After every event, the controller is quiescent if and only if all nodes have stopped and some epoch
      has been reported by all nodes. */
  lemma QuiescentIff(nodes: set<string>, h: History)
    requires FromGraph(nodes, h) && nodes != {} && WellTimed(h)
    ensures Final(nodes, h).quiescent <==> StoppedNodes(h) == nodes && exists e :: Reporters(h, e) == nodes
  {
    QuiescentFromReadyOn(nodes, h);
    ReadyStays(nodes, h);
    if e :| Reported(nodes, h, e) {
      LastReportsKeys(nodes, h, e);
      assert Reporters(h, e) == nodes;
    }
    if e :| Reporters(h, e) == nodes {
      LastReportsKeys(nodes, h, e);
      assert Reported(nodes, h, e);
    }
  }

  lemma {:induction false} ReadyStays(nodes: set<string>, h: History)
    requires FromGraph(nodes, h) && WellTimed(h)
    ensures WasReady(nodes, h) <==> Ready(nodes, h)
  {
    if h.Start? {
    } else {
      ReadyStays(nodes, h.before);
      StoppedOk(nodes, h);
      if Ready(nodes, h.before) {
        var e :| Reported(nodes, h.before, e);
        LastReportsKeys(nodes, h.before, e);
        LastReportsKeys(nodes, h, e);
        ReportersGrow(nodes, h, e);
        assert Reported(nodes, h, e);
      }
    }
  }

  lemma {:induction false} ReportersGrow(nodes: set<string>, h: History, epoch: nat)
    requires FromGraph(nodes, h)
    ensures Reporters(h, epoch) <= nodes
    ensures h.After? ==> Reporters(h.before, epoch) <= Reporters(h, epoch)
  {
    if h.Start? {
    } else {
      ReportersGrow(nodes, h.before, epoch);
    }
  }

  /** Initiating an epoch again discards its reports: here both conditions hold and the controller never notices. */
  lemma ReinitiationForgets()
    ensures var h := After(After(After(Start, Report("a", 1, [])), Initiate(1, false)), Stopped("a"));
            && FromGraph({"a"}, h) && !WellTimed(h)
            && StoppedNodes(h) == {"a"} && Reporters(h, 1) == {"a"} && !Final({"a"}, h).quiescent
  {
    var h1 := After(Start, Report("a", 1, []));
    var h2 := After(h1, Initiate(1, false));
    var h3 := After(h2, Stopped("a"));
    assert Reporters(h1, 1) == {"a"};
    var c1 := Final({"a"}, h1);
    assert c1.checkpoints.Keys == {1};
    assert Final({"a"}, h2) == Track(c1, 1, Fresh(false));
    assert !SomeComplete(Final({"a"}, h2).checkpoints);
    assert !c1.quiescent;
  }

  // ---------------------------------------------------------------- callbacks

  function Count(calls: seq<Call>, epoch: nat): nat {
    if calls == [] then 0
    else Count(calls[..|calls| - 1], epoch) + if calls[|calls| - 1].Completed?
          && calls[|calls| - 1].epoch == epoch then 1 else 0
  }

  function CountQuiescence(calls: seq<Call>): nat {
    if calls == [] then 0
    else CountQuiescence(calls[..|calls| - 1]) + if calls[|calls| - 1].Quiescence? then 1 else 0
  }

  lemma {:induction false} CountAppend(calls: seq<Call>, more: seq<Call>, epoch: nat)
    ensures Count(calls + more, epoch) == Count(calls, epoch) + Count(more, epoch)
    ensures CountQuiescence(calls + more) == CountQuiescence(calls) + CountQuiescence(more)
  {
    if more == [] {
      assert calls + more == calls;
    } else {
      var front := more[..|more| - 1];
      CountAppend(calls, front, epoch);
      assert (calls + more)[..|calls + more| - 1] == calls + front;
    }
  }

  lemma CountOne(call: Call, epoch: nat)
    ensures Count([call], epoch) == if call.Completed? && call.epoch == epoch then 1 else 0
    ensures CountQuiescence([call]) == if call.Quiescence? then 1 else 0
  {
    assert [call][..0] == [];
  }

  lemma CheckCalls(nodes: set<string>, c: Ctl, epoch: nat)
    ensures Count(Check(nodes, c).calls, epoch) == 0
    ensures CountQuiescence(Check(nodes, c).calls) == if Check(nodes, c).ctl.quiescent && !c.quiescent then 1 else 0
  {
    CountOne(Quiescence, epoch);
  }

  lemma ReportCalls(nodes: set<string>, c: Ctl, node: string, e: nat, state: Bytes, epoch: nat)
    requires !InfoOf(c, e).complete && |InfoOf(c, e).completedNodes + {node}| == |nodes|
    ensures var t := OnReport(nodes, c, node, e, state);
            && CountQuiescence(t.calls) == (if t.ctl.quiescent && !c.quiescent then 1 else 0)
            && Count(t.calls, epoch) == (if e == epoch then 1 else 0)
            && InfoOf(t.ctl, e).complete && (e != epoch ==> InfoOf(t.ctl, epoch) == InfoOf(c, epoch))
  {
    var info := InfoOf(c, e);
    var completed, states := info.completedNodes + {node}, info.nodeStates[node := state];
    var tracked := Track(c, e, Info(true, completed, states, info.thenStop));
    var t := Check(nodes, tracked);
    CheckCalls(nodes, tracked, epoch);
    CountOne(Completed(e, states), epoch);
    CountAppend([Completed(e, states)], t.calls, epoch);
    assert t.ctl.checkpoints == tracked.checkpoints;
    assert OnReport(nodes, c, node, e, state) == Tick(t.ctl, [Completed(e, states)] + t.calls);
  }

  /** A step calls back exactly when it makes the controller quiescent or the epoch complete. */
  lemma StepCalls(nodes: set<string>, c: Ctl, ev: Event, epoch: nat)
    ensures var t := OnEvent(nodes, c, ev);
            && CountQuiescence(t.calls) == (if t.ctl.quiescent && !c.quiescent then 1 else 0)
            && Count(t.calls, epoch) == (if InfoOf(t.ctl, epoch).complete && !InfoOf(c, epoch).complete then 1 else 0)
  {
    match ev {
      case Initiate(_, _) =>
      case Stopped(node) => CheckCalls(nodes, Ctl(c.checkpoints, c.stopped + {node}, c.quiescent), epoch);
      case Report(node, e, state) =>
        if !InfoOf(c, e).complete && |InfoOf(c, e).completedNodes + {node}| == |nodes| {
          ReportCalls(nodes, c, node, e, state, epoch);
        }
    }
  }

  lemma StepKeeps(nodes: set<string>, c: Ctl, ev: Event, epoch: nat)
    ensures c.quiescent ==> OnEvent(nodes, c, ev).ctl.quiescent
    ensures InfoOf(c, epoch).complete && !(ev.Initiate? && ev.epoch == epoch) ==>
          InfoOf(OnEvent(nodes, c, ev).ctl, epoch).complete
  {
  }

  /** The quiescence callback is made at most once, and has been made if and only if the controller is quiescent. */
  lemma {:induction false} QuiescenceCalledOnce(nodes: set<string>, h: History)
    ensures CountQuiescence(Calls(nodes, h)) == if Final(nodes, h).quiescent then 1 else 0
  {
    if h.Start? {
    } else {
      QuiescenceCalledOnce(nodes, h.before);
      StepCalls(nodes, Final(nodes, h.before), h.event, 0);
      StepKeeps(nodes, Final(nodes, h.before), h.event, 0);
      CountAppend(Calls(nodes, h.before), OnEvent(nodes, Final(nodes, h.before), h.event).calls, 0);
    }
  }

  /** How often an epoch was initiated after all nodes had reported it. */
  ghost function Restarts(nodes: set<string>, h: History, epoch: nat): nat {
    if h.Start? then 0
    else Restarts(nodes, h.before, epoch) + if h.event.Initiate? && h.event.epoch == epoch
          && Reported(nodes, h.before, epoch) then 1 else 0
  }

  /** The completion callback is made once for an epoch, and once more each time the epoch is initiated
      again after it was complete. */
  lemma {:induction false} CompletionCalls(nodes: set<string>, h: History, epoch: nat)
    requires FromGraph(nodes, h) && nodes != {}
    ensures Count(Calls(nodes, h), epoch) == Restarts(nodes, h, epoch) + if Reported(nodes, h, epoch) then 1 else 0
  {
    EntriesOk(nodes, h, epoch);
    if h.Start? {
    } else {
      CompletionCalls(nodes, h.before, epoch);
      EntriesOk(nodes, h.before, epoch);
      StepCalls(nodes, Final(nodes, h.before), h.event, epoch);
      StepKeeps(nodes, Final(nodes, h.before), h.event, epoch);
      CountAppend(Calls(nodes, h.before), OnEvent(nodes, Final(nodes, h.before), h.event).calls, epoch);
    }
  }

  /** So with every epoch initiated before its reports: exactly once when all nodes have reported it, never before. */
  lemma CompletionCalledOnce(nodes: set<string>, h: History, epoch: nat)
    requires FromGraph(nodes, h) && nodes != {} && WellTimed(h)
    ensures Count(Calls(nodes, h), epoch) == if Reporters(h, epoch) == nodes then 1 else 0
  {
    CompletionCalls(nodes, h, epoch);
    LastReportsKeys(nodes, h, epoch);
    NoRestarts(nodes, h, epoch);
  }

  lemma {:induction false} NoRestarts(nodes: set<string>, h: History, epoch: nat)
    requires WellTimed(h) && nodes != {}
    ensures Restarts(nodes, h, epoch) == 0
  {
    if h.Start? {
    } else {
      NoRestarts(nodes, h.before, epoch);
      LastReportsKeys(nodes, h.before, epoch);
    }
  }

  /** The last event is the last missing report for the epoch, and these are the last reports of all nodes. */
  ghost predicate CompletesWith(nodes: set<string>, h: History, epoch: nat, states: States)
    requires h.After?
  {
    && h.event.Report? && h.event.epoch == epoch && states == LastReports(h, epoch)
    && Reported(nodes, h, epoch) && !Reported(nodes, h.before, epoch)
  }

  /** So it was at some point of the history. */
  ghost predicate CompletedWith(nodes: set<string>, h: History, epoch: nat, states: States) {
    h.After? && (CompletedWith(nodes, h.before, epoch, states) || CompletesWith(nodes, h, epoch, states))
  }

  /** A step makes the callback exactly when the last missing report comes in. */
  lemma StepCarries(nodes: set<string>, h: History, call: Call)
    requires FromGraph(nodes, h) && nodes != {} && call.Completed? && h.After?
    ensures call in OnEvent(nodes, Final(nodes, h.before), h.event).calls <==>
          CompletesWith(nodes, h, call.epoch, call.states)
  {
    if h.event.Report? {
      EntriesOk(nodes, h.before, h.event.epoch);
      ReportEntry(nodes, Final(nodes, h.before), h.event.node, h.event.epoch, h.event.state,
                  LastReports(h.before, h.event.epoch));
    }
  }

  /** The callback is made for an epoch only when all nodes have reported it, with the last-reported states. */
  lemma {:induction false} CallsCarryLastReports(nodes: set<string>, h: History, call: Call)
    requires FromGraph(nodes, h) && nodes != {} && call.Completed?
    ensures call in Calls(nodes, h) <==> CompletedWith(nodes, h, call.epoch, call.states)
  {
    if h.Start? {
    } else {
      CallsCarryLastReports(nodes, h.before, call);
      StepCarries(nodes, h, call);
    }
  }

  // ---------------------------------------------------------------- the order of callbacks

  ghost predicate SomeCompletion(calls: seq<Call>) {
    exists i: nat :: i < |calls| && calls[i].Completed?
  }

  /** Quiescence is called back only behind a completion, so the checkpoint it rests on has been handed on. */
  ghost predicate CompletionsFirst(calls: seq<Call>) {
    forall i: nat :: i < |calls| && calls[i].Quiescence? ==> SomeCompletion(calls[..i])
  }

  lemma CompletionStays(calls: seq<Call>, more: seq<Call>)
    requires SomeCompletion(calls)
    ensures SomeCompletion(calls + more)
  {
    var i: nat :| i < |calls| && calls[i].Completed?;
    assert (calls + more)[i].Completed?;
  }

  lemma FirstSnoc(calls: seq<Call>, c: Call)
    requires CompletionsFirst(calls) && (c.Quiescence? ==> SomeCompletion(calls))
    ensures CompletionsFirst(calls + [c]) && (c.Completed? || SomeCompletion(calls) ==> SomeCompletion(calls + [c]))
  {
    var more := calls + [c];
    forall i: nat | i < |more| && more[i].Quiescence? ensures SomeCompletion(more[..i]) {
      assert more[..i] == if i < |calls| then calls[..i] else calls;
    }
    assert more[|calls|] == c;
    if SomeCompletion(calls) {
      CompletionStays(calls, [c]);
    }
  }

  lemma CheckFollows(nodes: set<string>, c: Ctl, calls: seq<Call>)
    requires CompletionsFirst(calls) && (SomeComplete(c.checkpoints) ==> SomeCompletion(calls))
    ensures CompletionsFirst(calls + Check(nodes, c).calls)
    ensures SomeComplete(Check(nodes, c).ctl.checkpoints) ==> SomeCompletion(calls + Check(nodes, c).calls)
  {
    Assoc(calls, [], []);
    if Check(nodes, c).calls != [] {
      FirstSnoc(calls, Quiescence);
    }
  }

  lemma StepFollows(nodes: set<string>, c: Ctl, ev: Event, calls: seq<Call>)
    requires CompletionsFirst(calls) && (SomeComplete(c.checkpoints) ==> SomeCompletion(calls))
    ensures CompletionsFirst(calls + OnEvent(nodes, c, ev).calls)
    ensures SomeComplete(OnEvent(nodes, c, ev).ctl.checkpoints) ==> SomeCompletion(calls + OnEvent(nodes, c, ev).calls)
  {
    Assoc(calls, [], []);
    match ev {
      case Initiate(epoch, thenStop) => StillComplete(c, epoch, Fresh(thenStop));
      case Stopped(node) => CheckFollows(nodes, Ctl(c.checkpoints, c.stopped + {node}, c.quiescent), calls);
      case Report(node, epoch, state) =>
        var info := InfoOf(c, epoch);
        var completed, states := info.completedNodes + {node}, info.nodeStates[node := state];
        if !info.complete && |completed| == |nodes| {
          var tracked := Track(c, epoch, Info(true, completed, states, info.thenStop));
          FirstSnoc(calls, Completed(epoch, states));
          CheckFollows(nodes, tracked, calls + [Completed(epoch, states)]);
          Assoc(calls, [Completed(epoch, states)], Check(nodes, tracked).calls);
        } else if !info.complete {
          StillComplete(c, epoch, Info(false, completed, states, info.thenStop));
        }
    }
  }

  lemma StillComplete(c: Ctl, epoch: nat, info: Info)
    requires !info.complete
    ensures SomeComplete(Track(c, epoch, info).checkpoints) ==> SomeComplete(c.checkpoints)
  {
    var later := Track(c, epoch, info).checkpoints;
    if e :| e in later && later[e].complete {
      assert e in c.checkpoints && c.checkpoints[e].complete;
    }
  }

  /** In every history. */
  lemma {:induction false} QuiescenceFollowsCompletion(nodes: set<string>, h: History)
    ensures CompletionsFirst(Calls(nodes, h))
    ensures SomeComplete(Final(nodes, h).checkpoints) ==> SomeCompletion(Calls(nodes, h))
  {
    if h.Start? {
    } else {
      QuiescenceFollowsCompletion(nodes, h.before);
      StepFollows(nodes, Final(nodes, h.before), h.event, Calls(nodes, h.before));
    }
  }
}
