/** Why a node forwards a stop only after everything else (internal/engine/runtime.go, handleSignal and
    drainIfDrainable). The premise is that a stop, if present, is the last message of every input. */
module StopProtocol {
  import opened Collections
  import opened Messages
  import opened Alignment
  import opened NodeRuntime

  ghost predicate NoStop(s: seq<Message>) {
    forall a :: 0 <= a < |s| ==> !s[a].Stop?
  }

  /** A stop may only be the last message. */
  ghost predicate StopLast(s: seq<Message>) {
    forall a :: 0 <= a < |s| - 1 ==> !s[a].Stop?
  }

  // ---------------------------------------------------------------- streams

  lemma {:induction false} FilterStops(s: seq<Message>)
    ensures NoStop(Unwatermarked(s)) <==> NoStop(s)
    ensures NoStop(NonBarriers(s)) <==> NoStop(s)
    ensures StopLast(s) ==> StopLast(Unwatermarked(s)) && StopLast(NonBarriers(s))
  {
    if s == [] {
    } else {
      var front, last := s[..|s| - 1], s[|s| - 1];
      FilterStops(front);
      SplitStops(front, [last]);
      assert s == front + [last];
      SplitStops(Unwatermarked(front), [last]);
      SplitStops(NonBarriers(front), [last]);
    }
  }

  lemma SplitStops(s: seq<Message>, u: seq<Message>)
    ensures NoStop(s + u) <==> NoStop(s) && NoStop(u)
    ensures StopLast(s + u) ==> StopLast(s) && StopLast(u)
    ensures StopLast(s + u) && !NoStop(s) ==> u == []
    ensures NoStop(s) && StopLast(u) ==> StopLast(s + u)
  {
    assert forall a :: 0 <= a < |s| ==> (s + u)[a] == s[a];
    assert forall a :: 0 <= a < |u| ==> (s + u)[|s| + a] == u[a];
  }

  lemma OneMessage(s: seq<Message>, m: Message)
    ensures NoStop([m]) <==> !m.Stop?
    ensures NoStop(s + [m]) <==> NoStop(s) && !m.Stop?
    ensures NoStop(s) ==> StopLast(s + [m])
  {
    assert [m][0] == m;
    SplitStops(s, [m]);
  }

  /** Everything an input will ever have the operator see. */
  function Payload(s: seq<Message>): seq<Message> {
    NonBarriers(Unwatermarked(s))
  }

  /** What the node knows about one input. */
  ghost predicate InputFacts(c: Config, t: Intake, a: Agenda, r: Record, delivered: seq<Message>, i: nat) {
    i < c.inputs && InRange(c.inputs, t.fed) && AlignOk(c, t, a, r) && InputOk(t, delivered, i)
  }

  /** Dispatched, then about to be, then held back: exactly the payload taken from the input. */
  lemma DispatchOrder(c: Config, t: Intake, a: Agenda, r: Record, delivered: seq<Message>, i: nat)
    requires InputFacts(c, t, a, r, delivered, i)
    ensures Stream(r.dispatched, i) + (Stream(a.work, i) + Stream(t.aligner.held, i)) == Payload(Stream(t.arrived, i))
  {
    KeepsEveryInput(c.inputs, t.fed, i);
    StreamAppend(r.dispatched, a.work, i);
    Assoc(Stream(r.dispatched, i), Stream(a.work, i), Stream(t.aligner.held, i));
  }

  /** An input whose stop has been dispatched is exhausted: nothing of it waits anywhere, the last thing
      the aligner saw of it is the stop, and all its payload has been dispatched. */
  lemma StoppedInputIsExhausted(c: Config, t: Intake, a: Agenda, r: Record, delivered: seq<Message>, i: nat)
    requires InputFacts(c, t, a, r, delivered, i) && StopLast(delivered)
    requires !NoStop(Stream(r.dispatched, i))
    ensures Stream(t.merged, i) == [] && Stream(a.work, i) == [] && Stream(t.aligner.held, i) == []
    ensures Stream(r.dispatched, i) == Payload(delivered)
    ensures !NoStop(delivered) && delivered[|delivered| - 1].Stop?
    ensures !NoStop(Stream(t.fed, i)) && StopLast(Stream(t.fed, i))
  {
    var taken := Stream(t.arrived, i);
    DispatchOrder(c, t, a, r, delivered, i);
    SplitStops(taken, Stream(t.merged, i));
    FilterStops(taken);
    FilterStops(Unwatermarked(taken));
    SplitStops(Stream(r.dispatched, i), Stream(a.work, i) + Stream(t.aligner.held, i));
    Assoc(taken, [], []);
    Assoc(Stream(r.dispatched, i), [], []);
    assert taken == delivered;
  }

  /** The next message to dispatch, if it is a stop, is its input's first. */
  lemma StopIsFresh(c: Config, t: Intake, a: Agenda, r: Record, delivered: seq<Message>, i: nat)
    requires InputFacts(c, t, a, r, delivered, i) && StopLast(delivered)
    requires a.work != [] && a.work[0] == Indexed(i, Stop)
    ensures NoStop(Stream(r.dispatched, i))
  {
    if !NoStop(Stream(r.dispatched, i)) {
      StoppedInputIsExhausted(c, t, a, r, delivered, i);
      TakeFirst(a.work, i);
    }
  }

  lemma StreamOfLast(t: seq<Indexed>)
    requires t != []
    ensures var s := Stream(t, t[|t| - 1].input); |s| > 0 && s[|s| - 1] == t[|t| - 1].msg
  {
  }

  // ---------------------------------------------------------------- the invariant

  ghost predicate StoppedOk(c: Config, r: Record, f: Phase) {
    && (forall i :: i in f.stopped ==> i < c.inputs)
    && (forall i: nat :: i < c.inputs ==> (i in f.stopped <==> !NoStop(Stream(r.dispatched, i))))
    && f.active == AtLeastOne(c.inputs) - |f.stopped|
    && (f.stopping <==> f.active <= 0)
  }

  /** A stopping node has nothing left to read or to handle, and no worker once it has drained. */
  ghost predicate QuietOk(t: Intake, a: Agenda, f: Phase) {
    && (f.stopping ==> t.merged == [] && a.work == [] && a.barrier.None? && a.advance.None?)
    && (f.drained ==> f.stopping && f.inflight == 0)
  }

  /** A stop is promised on an output exactly when the node has drained, and then as the last message. */
  ghost predicate StopSentOk(f: Phase, promised: seq<Message>) {
    && StopLast(promised)
    && (f.drained <==> !NoStop(promised))
  }

  ghost predicate InputsStopLast(l: Local) {
    forall i :: 0 <= i < |l.ins| ==> StopLast(l.ins[i])
  }

  ghost predicate Facts(c: Config, l: Local) {
    && ShapeOk(c, l) && c.inputs > 0
    && AlignOk(c, l.intake, l.agenda, l.record)
    && forall i: nat :: i < c.inputs ==> InputOk(l.intake, l.ins[i], i)
  }

  ghost predicate StopOk(c: Config, l: Local)
    requires |l.outs| == c.outputs
  {
    && StoppedOk(c, l.record, l.phase)
    && QuietOk(l.intake, l.agenda, l.phase)
    && forall j: nat :: j < c.outputs ==> StopSentOk(l.phase, Promised(l, j))
  }

  /** Stopping means every input has stopped. */
  lemma StoppingMeansAll(c: Config, r: Record, f: Phase)
    requires c.inputs > 0 && StoppedOk(c, r, f) && f.stopping
    ensures forall i: nat :: i < c.inputs ==> !NoStop(Stream(r.dispatched, i))
  {
    FullSet(c.inputs, f.stopped);
    assert forall i: nat :: i < c.inputs ==> i in Inputs(c.inputs);
  }

  lemma DispatchedStops(dispatched: seq<Indexed>, m: Indexed, i: nat)
    ensures NoStop(Stream(dispatched + [m], i)) <==> NoStop(Stream(dispatched, i)) && !(m.input == i && m.msg.Stop?)
  {
    StreamSnoc(dispatched, m, i);
    OneMessage(Stream(dispatched, i), m.msg);
  }

  lemma StoppedNext(c: Config, r: Record, f: Phase, m: Indexed)
    requires StoppedOk(c, r, f) && !f.stopping && m.input < c.inputs
    requires m.msg.Stop? ==> NoStop(Stream(r.dispatched, m.input))
    ensures StoppedOk(c, r.(dispatched := r.dispatched + [m]), DispatchPhase(c, f, m))
  {
    var f' := DispatchPhase(c, f, m);
    forall i: nat | i < c.inputs ensures i in f'.stopped <==> !NoStop(Stream(r.dispatched + [m], i)) {
      DispatchedStops(r.dispatched, m, i);
    }
  }

  lemma StoppedDispatch(c: Config, l: Local)
    requires Facts(c, l) && StoppedOk(c, l.record, l.phase) && InputsStopLast(l)
    requires l.agenda.work != [] && !l.phase.stopping
    ensures var m := l.agenda.work[0];
            StoppedOk(c, l.record.(dispatched := l.record.dispatched + [m]), DispatchPhase(c, l.phase, m))
  {
    var m := l.agenda.work[0];
    WorkInRange(c, l);
    if m.msg.Stop? {
      StopIsFresh(c, l.intake, l.agenda, l.record, l.ins[m.input], m.input);
    }
    StoppedNext(c, l.record, l.phase, m);
  }

  lemma WorkInRange(c: Config, l: Local)
    requires Facts(c, l) && l.agenda.work != []
    ensures l.agenda.work[0].input < c.inputs
  {
    ReleasedInRange(c.inputs, l.intake.fed);
    var q := Run(c.inputs, l.intake.fed).released;
    assert q[|l.record.dispatched|] == l.agenda.work[0];
  }

  lemma {:induction false} ReleasedInRange(n: nat, t: seq<Indexed>)
    requires InRange(n, t)
    ensures InRange(n, Run(n, t).released)
  {
    if t == [] {
    } else {
      ReleasedInRange(n, t[..|t| - 1]);
      RunStateOk(n, t[..|t| - 1]);
      StepCases(n, Run(n, t[..|t| - 1]).state, t[|t| - 1]);
    }
  }

  /** When the last input's stop has been dispatched the handler has nothing else to do: it took that
      stop itself, because an input that closes an alignment has yet to stop. */
  lemma NothingAfterLastStop(c: Config, l: Local)
    requires Facts(c, l) && InputsStopLast(l)
    requires forall i: nat :: i < c.inputs ==> !NoStop(Stream(l.record.dispatched, i))
    ensures l.intake.merged == [] && l.agenda.work == [] && l.agenda.barrier.None?
  {
    forall i: nat | i < c.inputs
      ensures Stream(l.intake.merged, i) == [] && Stream(l.agenda.work, i) == []
      ensures !NoStop(Stream(l.intake.fed, i)) && StopLast(Stream(l.intake.fed, i))
    {
      StoppedInputIsExhausted(c, l.intake, l.agenda, l.record, l.ins[i], i);
    }
    if l.intake.merged != [] {
      StreamOfLast(l.intake.merged);
    }
    if l.agenda.work != [] {
      WorkInRange(c, l);
      TakeFirst(l.agenda.work, l.agenda.work[0].input);
    }
    if l.agenda.barrier.Some? {
      LastFedIsStop(l.intake.fed);
    }
  }

  lemma LastFedIsStop(fed: seq<Indexed>)
    requires fed != []
    requires !NoStop(Stream(fed, fed[|fed| - 1].input)) && StopLast(Stream(fed, fed[|fed| - 1].input))
    ensures fed[|fed| - 1].msg.Stop?
  {
    StreamOfLast(fed);
    var s := Stream(fed, fed[|fed| - 1].input);
    var a :| 0 <= a < |s| && s[a].Stop?;
    assert a == |s| - 1;
  }

  // ---------------------------------------------------------------- preservation

  /** A timer or tick that emits after the node's last stop. Nothing in the loop excludes it. */
  predicate Late(l: Local, s: Step) {
    s.FireTimers? && l.phase.stopping && s.emits != []
  }

  lemma AddsNoStop(c: Config, l: Local, s: Step, j: nat)
    requires ShapeOk(c, l) && Enabled(c, l, s) && c.inputs > 0 && j < c.outputs
    ensures if s.Drain? then Added(c, l, s, j) == [Stop] else NoStop(Added(c, l, s, j))
  {
    AddedShape(c, l, s, j);
    var x := Added(c, l, s, j);
    if s.AdvanceWatermark? {
      OneMessage(x[..|x| - 1], x[|x| - 1]);
      SplitLast(x);
    }
  }

  lemma StopSentStep(c: Config, l: Local, s: Step, j: nat)
    requires !Late(l, s)
    requires Facts(c, l) && Enabled(c, l, s) && j < c.outputs
    requires QuietOk(l.intake, l.agenda, l.phase) && StopSentOk(l.phase, Promised(l, j))
    ensures var l' := Apply(c, l, s);
            |l'.outs| == c.outputs && StopSentOk(l'.phase, Promised(l', j))
  {
    PromisedGrows(c, l, s, j);
    AddsNoStop(c, l, s, j);
    SplitStops(Promised(l, j), Added(c, l, s, j));
    OneMessage(Promised(l, j), Stop);
    Assoc(Promised(l, j), [], []);
  }

  lemma QuietStep(c: Config, l: Local, s: Step)
    requires Facts(c, l) && Enabled(c, l, s) && StopOk(c, l)
    requires Facts(c, Apply(c, l, s)) && InputsStopLast(Apply(c, l, s))
    requires StoppedOk(c, Apply(c, l, s).record, Apply(c, l, s).phase)
    ensures var l' := Apply(c, l, s); QuietOk(l'.intake, l'.agenda, l'.phase)
  {
    var l' := Apply(c, l, s);
    if l'.phase.stopping {
      StoppingMeansAll(c, l'.record, l'.phase);
      NothingAfterLastStop(c, l');
    }
  }

  lemma StopStep(c: Config, l: Local, s: Step)
    requires !Late(l, s)
    requires Facts(c, l) && Enabled(c, l, s) && StopOk(c, l)
    requires Facts(c, Apply(c, l, s)) && InputsStopLast(l) && InputsStopLast(Apply(c, l, s))
    ensures StopOk(c, Apply(c, l, s))
  {
    if s.Process? {
      assert !l.phase.stopping;
      StoppedDispatch(c, l);
    }
    QuietStep(c, l, s);
    forall j: nat | j < c.outputs ensures StopSentOk(Apply(c, l, s).phase, Promised(Apply(c, l, s), j)) {
      StopSentStep(c, l, s, j);
    }
  }
}
