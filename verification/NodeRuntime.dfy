/** One node's goroutines as a step machine (internal/engine/runtime.go): a merger per input, the
    processing loop with its aligner and watermark holder, the sends on the outputs, and the workers
    of a pooled operator. Each step is one atomic action; a handler that sends on several outputs or
    waits for workers takes several steps, and other goroutines may act in between. */
module NodeRuntime {
  import opened Collections
  import opened Messages
  import opened Codecs
  import opened Alignment
  import Watermarks

  /** The shape of a node: how many inputs and outputs, and whether its operator dispatches each
      message to a worker (ConcurrentOperator) instead of emitting synchronously. */
  datatype Config = Config(inputs: nat, outputs: nat, pooled: bool)

  /** A snapshot: the barrier, the bytes the node gave for its state, and what that state reflects, which is
      everything dispatched so far, including what the aligning call had released, and everything put on
      each output so far. */
  datatype Snapshot = Snapshot(
    barrier: BarrierSignal,
    state: Bytes,
    consumed: seq<Indexed>,
    heldBack: seq<Indexed>,
    sentBefore: seq<seq<Message>>)

  /** What the loop has read: the merged channel, all it took from it, the part it fed to the aligner. */
  datatype Intake = Intake(
    merged: seq<Indexed>,
    arrived: seq<Indexed>,
    fed: seq<Indexed>,
    aligner: AlignState,
    holder: Watermarks.Holder)

  /** What the current handler still has to do. */
  datatype Agenda = Agenda(
    work: seq<Indexed>,
    barrier: Option<BarrierSignal>,
    heldBack: seq<Indexed>,
    advance: Option<WatermarkSignal>)

  /** What has been dispatched to the operator, and the snapshots taken. */
  datatype Record = Record(dispatched: seq<Indexed>, snapshots: seq<Snapshot>)

  /** Running workers, inputs not yet stopped, and how far the shutdown has come. */
  datatype Phase = Phase(inflight: nat, active: int, stopped: set<nat>, stopping: bool, drained: bool)

  /** A node. `sends` is what the handler is about to send, `ins[i]` what the merger has taken from
      input `i`, `outs[j]` what was sent on output `j`. */
  datatype Local = Local(
    intake: Intake,
    agenda: Agenda,
    record: Record,
    phase: Phase,
    sends: seq<Indexed>,
    ins: seq<seq<Message>>,
    outs: seq<seq<Message>>)

  datatype Step =
    | SourceSend(out: nat, msg: Message)
    | Merge(input: nat, msg: Message)
    | Take
    | Process(emits: seq<Indexed>)
    | TakeSnapshot(state: Bytes)
    | AdvanceWatermark(emits: seq<Indexed>)
    | FireTimers(emits: seq<Indexed>)
    | Drain
    | Send
    | WorkerEmit(out: nat, msg: Message)
    | WorkerDone

  /** A node without inputs counts as having one, so that stop handling is uniform. */
  function AtLeastOne(n: nat): nat {
    if n == 0 then 1 else n
  }

  const NOTHING_TO_DO := Agenda([], None, [], None)

  function Initial(c: Config): Local {
    Local(
      Intake([], [], [], Fresh(c.inputs), Watermarks.FreshHolder(AtLeastOne(c.inputs))),
      NOTHING_TO_DO,
      Record([], []),
      Phase(0, AtLeastOne(c.inputs), {}, false, false),
      [],
      seq(c.inputs, _ => []),
      seq(c.outputs, _ => []))
  }

  /** Operators emit data only, on the node's own outputs. */
  ghost predicate EmitsOk(c: Config, emits: seq<Indexed>) {
    forall j :: 0 <= j < |emits| ==> emits[j].input < c.outputs && emits[j].msg.Data?
  }

  /** The handler has finished its sends, and a stop it has met is forwarded. */
  predicate Ready(l: Local) {
    l.sends == [] && (l.phase.stopping ==> l.phase.drained)
  }

  /** The loop is between two handlers. */
  predicate AtRest(l: Local) {
    Ready(l) && l.agenda.work == [] && l.agenda.barrier.None? && l.agenda.advance.None?
  }

  /** FireTimers stands for the expired timers and for ticks. A pooled operator handles neither. The loop may
      fire them even after it has forwarded a stop: it looks at the timers before it looks at the context. */
  ghost predicate Enabled(c: Config, l: Local, s: Step) {
    match s
    case SourceSend(j, _) => c.inputs == 0 && j < |l.outs|
    case Merge(i, _) => i < |l.ins|
    case Take => AtRest(l) && l.intake.merged != []
    case Process(emits) =>
      && Ready(l) && l.agenda.work != [] && EmitsOk(c, emits)
      && (emits != [] ==> l.agenda.work[0].msg.Data? && !c.pooled)
    case TakeSnapshot(_) => Ready(l) && l.agenda.work == [] && l.agenda.barrier.Some? && l.phase.inflight == 0
    case AdvanceWatermark(emits) => Ready(l) && l.agenda.advance.Some? && l.phase.inflight == 0 && EmitsOk(c, emits)
    case FireTimers(emits) => AtRest(l) && c.inputs > 0 && !c.pooled && EmitsOk(c, emits)
    case Drain => l.sends == [] && l.phase.stopping && !l.phase.drained && l.phase.inflight == 0
    case Send => l.sends != [] && l.sends[0].input < |l.outs|
    case WorkerEmit(j, m) => l.phase.inflight > 0 && j < |l.outs| && m.Data?
    case WorkerDone => l.phase.inflight > 0
  }

  /** One message to every output, in order. */
  function Broadcast(outputs: nat, m: Message): seq<Indexed> {
    seq(outputs, j requires j >= 0 => Indexed(j, m))
  }

  function Push(outs: seq<seq<Message>>, j: nat, m: Message): seq<seq<Message>>
    requires j < |outs|
  {
    outs[j := outs[j] + [m]]
  }

  function Apply(c: Config, l: Local, s: Step): Local
    requires Enabled(c, l, s)
  {
    match s
    case SourceSend(j, m) => l.(outs := Push(l.outs, j, m))
    case Merge(i, m) => l.(intake := l.intake.(merged := l.intake.merged + [Indexed(i, m)]), ins := Push(l.ins, i, m))
    case Take => l.(intake := TakeNext(l.intake).0, agenda := TakeNext(l.intake).1)
    case Process(emits) =>
      var m := l.agenda.work[0];
      l.(agenda := l.agenda.(work := l.agenda.work[1..]),
         record := l.record.(dispatched := l.record.dispatched + [m]),
         phase := DispatchPhase(c, l.phase, m),
         sends := emits)
    case TakeSnapshot(state) =>
      var b := l.agenda.barrier.value;
      var snap := Snapshot(b, state, l.record.dispatched, l.agenda.heldBack, l.outs);
      l.(agenda := l.agenda.(barrier := None),
         record := l.record.(snapshots := l.record.snapshots + [snap]),
         sends := Broadcast(c.outputs, Barrier(b)))
    case AdvanceWatermark(emits) =>
      l.(agenda := l.agenda.(advance := None), sends := emits + Broadcast(c.outputs, Watermark(l.agenda.advance.value)))
    case FireTimers(emits) => l.(sends := emits)
    case Drain => l.(phase := l.phase.(drained := true), sends := Broadcast(c.outputs, Stop))
    case Send => l.(sends := l.sends[1..], outs := Push(l.outs, l.sends[0].input, l.sends[0].msg))
    case WorkerEmit(j, m) => l.(outs := Push(l.outs, j, m))
    case WorkerDone => l.(phase := l.phase.(inflight := l.phase.inflight - 1))
  }

  /** handleIndexedMessage up to its dispatches: watermarks go to the holder, all else to the aligner. */
  function TakeNext(t: Intake): (Intake, Agenda)
    requires t.merged != []
  {
    var m := t.merged[0];
    var t1 := t.(merged := t.merged[1..], arrived := t.arrived + [m]);
    if m.msg.Watermark? then
      var a := Watermarks.UpdateSpec(t.holder, m.input, m.msg.watermark);
      (t1.(holder := a.holder), Agenda([], None, [], a.emitted))
    else
      var r := OnMessageSpec(t.aligner, m);
      (t1.(fed := t.fed + [m], aligner := r.state), Agenda(r.released, r.aligned, r.released, None))
  }

  /** handleMessage's effect on the counters: a pooled operator starts a worker, a stop closes an input. */
  function DispatchPhase(c: Config, f: Phase, m: Indexed): Phase {
    if m.msg.Data? && c.pooled then f.(inflight := f.inflight + 1)
    else if m.msg.Stop? then
      var g := f.(active := f.active - 1, stopped := f.stopped + {m.input});
      if g.active <= 0 then g.(stopping := true, drained := false) else g
    else f
  }

  // ---------------------------------------------------------------- shape

  ghost predicate IntakeOk(c: Config, t: Intake) {
    InRange(c.inputs, t.merged) && InRange(c.inputs, t.fed) && StateOk(c.inputs, t.aligner)
  }

  /** The handler works on what it took last: a single message, or an alignment that a barrier closed. */
  ghost predicate AgendaOk(fed: seq<Indexed>, a: Agenda) {
    && (a.advance.Some? ==> a.work == [] && a.barrier.None?)
    && (a.barrier.Some? ==> fed != [] && fed[|fed| - 1].msg.Barrier?)
    && (a.work != [] && a.barrier.None? ==> fed != [] && a.work == [fed[|fed| - 1]])
  }

  ghost predicate WorkersOk(c: Config, l: Local) {
    && (!c.pooled ==> l.phase.inflight == 0)
    && (l.phase.inflight > 0 ==> l.sends == [])
    && (c.inputs == 0 ==> l.agenda == NOTHING_TO_DO && l.sends == [] && !l.phase.stopping)
  }

  ghost predicate ShapeOk(c: Config, l: Local) {
    && |l.ins| == c.inputs && |l.outs| == c.outputs
    && IntakeOk(c, l.intake)
    && AgendaOk(l.intake.fed, l.agenda)
    && WorkersOk(c, l)
    && (forall j :: 0 <= j < |l.sends| ==> l.sends[j].input < c.outputs)
  }

  lemma ShapeTake(c: Config, t: Intake)
    requires IntakeOk(c, t) && t.merged != []
    ensures IntakeOk(c, TakeNext(t).0) && AgendaOk(TakeNext(t).0.fed, TakeNext(t).1)
  {
    StepCases(c.inputs, t.aligner, t.merged[0]);
  }

  lemma ShapeStep(c: Config, l: Local, s: Step)
    requires ShapeOk(c, l) && Enabled(c, l, s)
    ensures ShapeOk(c, Apply(c, l, s))
  {
    if s.Take? {
      ShapeTake(c, l.intake);
    }
  }

  // ---------------------------------------------------------------- inputs

  /** The messages the aligner sees: everything but watermarks. */
  function Unwatermarked(s: seq<Message>): seq<Message> {
    if s == [] then []
    else if s[|s| - 1].Watermark? then Unwatermarked(s[..|s| - 1])
    else Unwatermarked(s[..|s| - 1]) + [s[|s| - 1]]
  }

  lemma UnwatermarkedSnoc(s: seq<Message>, m: Message)
    ensures Unwatermarked(s + [m]) == if m.Watermark? then Unwatermarked(s) else Unwatermarked(s) + [m]
  {
    assert (s + [m])[..|s + [m]| - 1] == s;
  }

  lemma {:induction false} UnwatermarkedAppend(s: seq<Message>, u: seq<Message>)
    ensures Unwatermarked(s + u) == Unwatermarked(s) + Unwatermarked(u)
  {
    if u == [] {
      assert s + u == s;
    } else {
      var front, last := u[..|u| - 1], u[|u| - 1];
      UnwatermarkedAppend(s, front);
      assert s + u == (s + front) + [last];
      UnwatermarkedSnoc(s + front, last);
      Assoc(Unwatermarked(s), Unwatermarked(front), [last]);
    }
  }

  /** Cutting at a barrier and dropping watermarks commute. */
  lemma CutUnwatermarked(s: seq<Message>, k: nat)
    ensures Barriers(Unwatermarked(s)) == Barriers(s)
    ensures Cut(Unwatermarked(s), k) == Unwatermarked(Cut(s, k))
    ensures NonBarriers(Unwatermarked(s)) == Unwatermarked(NonBarriers(s))
  {
    UnwatermarkedBarriers(s);
    UnwatermarkedCut(s, k);
    UnwatermarkedNonBarriers(s);
  }

  lemma {:induction false} UnwatermarkedBarriers(s: seq<Message>)
    ensures Barriers(Unwatermarked(s)) == Barriers(s)
  {
    if s == [] {
    } else {
      UnwatermarkedBarriers(s[..|s| - 1]);
      BarriersSnoc(Unwatermarked(s[..|s| - 1]), s[|s| - 1]);
    }
  }

  lemma {:induction false} UnwatermarkedCut(s: seq<Message>, k: nat)
    ensures Cut(Unwatermarked(s), k) == Unwatermarked(Cut(s, k))
  {
    if s == [] {
    } else {
      var front, last := s[..|s| - 1], s[|s| - 1];
      UnwatermarkedBarriers(front);
      UnwatermarkedCut(front, k);
      CutSnoc(Unwatermarked(front), last, k);
      UnwatermarkedSnoc(Cut(front, k), last);
    }
  }

  lemma {:induction false} UnwatermarkedNonBarriers(s: seq<Message>)
    ensures NonBarriers(Unwatermarked(s)) == Unwatermarked(NonBarriers(s))
  {
    if s == [] {
    } else {
      var front, last := s[..|s| - 1], s[|s| - 1];
      UnwatermarkedNonBarriers(front);
      NonBarriersSnoc(Unwatermarked(front), last);
      UnwatermarkedSnoc(NonBarriers(front), last);
    }
  }

  /** First in, first out: what an input delivered is what the loop took from it, then what waits. */
  ghost predicate InputOk(t: Intake, delivered: seq<Message>, i: nat) {
    && Stream(t.arrived, i) + Stream(t.merged, i) == delivered
    && Stream(t.fed, i) == Unwatermarked(Stream(t.arrived, i))
  }

  lemma InputMerge(t: Intake, delivered: seq<Message>, i: nat, m: Indexed)
    requires InputOk(t, delivered, i)
    ensures InputOk(t.(merged := t.merged + [m]), Deliver(delivered, m, i), i)
  {
    StreamSnoc(t.merged, m, i);
    Assoc(Stream(t.arrived, i), Stream(t.merged, i), [m.msg]);
  }

  lemma TakeMoves(arrived: seq<Indexed>, merged: seq<Indexed>, i: nat)
    requires merged != []
    ensures Stream(arrived + [merged[0]], i) + Stream(merged[1..], i) == Stream(arrived, i) + Stream(merged, i)
  {
    var m, rest := merged[0], Stream(merged[1..], i);
    TakeFirst(merged, i);
    StreamSnoc(arrived, m, i);
    if m.input == i {
      Assoc(Stream(arrived, i), [m.msg], rest);
      assert [] + [m.msg] == [m.msg];
    } else {
      Assoc([], [], rest);
    }
  }

  lemma TakeFeeds(arrived: seq<Indexed>, fed: seq<Indexed>, m: Indexed, i: nat)
    requires Stream(fed, i) == Unwatermarked(Stream(arrived, i))
    ensures Stream(if m.msg.Watermark? then fed else fed + [m], i) == Unwatermarked(Stream(arrived + [m], i))
  {
    StreamSnoc(arrived, m, i);
    StreamSnoc(fed, m, i);
    UnwatermarkedSnoc(Stream(arrived, i), m.msg);
  }

  lemma InputTake(t: Intake, delivered: seq<Message>, i: nat)
    requires InputOk(t, delivered, i) && t.merged != []
    ensures InputOk(TakeNext(t).0, delivered, i)
  {
    var m, t' := t.merged[0], TakeNext(t).0;
    TakeMoves(t.arrived, t.merged, i);
    TakeFeeds(t.arrived, t.fed, m, i);
    assert t'.arrived == t.arrived + [m] && t'.merged == t.merged[1..];
    assert t'.fed == if m.msg.Watermark? then t.fed else t.fed + [m];
  }

  lemma InputStep(c: Config, l: Local, s: Step, i: nat)
    requires Enabled(c, l, s) && i < |l.ins| && InputOk(l.intake, l.ins[i], i)
    ensures |Apply(c, l, s).ins| == |l.ins| && InputOk(Apply(c, l, s).intake, Apply(c, l, s).ins[i], i)
  {
    match s {
      case Merge(k, m) => InputMerge(l.intake, l.ins[i], i, Indexed(k, m));
      case Take => InputTake(l.intake, l.ins[i], i);
      case _ =>
    }
  }

  /** Taking the first element of a queue takes the first element of one stream. */
  lemma TakeFirst(q: seq<Indexed>, i: nat)
    requires q != []
    ensures Stream(q, i) == Deliver([], q[0], i) + Stream(q[1..], i)
  {
    assert q == [q[0]] + q[1..];
    StreamAppend([q[0]], q[1..], i);
    StreamSnoc([], q[0], i);
    assert [] + [q[0]] == [q[0]];
  }

  // ---------------------------------------------------------------- alignment and dispatch

  function BarriersOf(snaps: seq<Snapshot>): seq<BarrierSignal> {
    seq(|snaps|, k requires 0 <= k < |snaps| => snaps[k].barrier)
  }

  function Maybe(b: Option<BarrierSignal>): seq<BarrierSignal> {
    if b.Some? then [b.value] else []
  }

  /** The loop carries out exactly what the aligner decided, in order. */
  ghost predicate AlignOk(c: Config, t: Intake, a: Agenda, r: Record) {
    var q := Run(c.inputs, t.fed);
    && t.aligner == q.state
    && r.dispatched + a.work == q.released
    && BarriersOf(r.snapshots) + Maybe(a.barrier) == q.aligned
  }

  lemma AlignTake(c: Config, t: Intake, a: Agenda, r: Record)
    requires AlignOk(c, t, a, r) && t.merged != [] && a.work == [] && a.barrier.None?
    ensures AlignOk(c, TakeNext(t).0, TakeNext(t).1, r)
  {
    RunSnoc(c.inputs, t.fed, t.merged[0]);
    assert r.dispatched + [] == r.dispatched;
    assert BarriersOf(r.snapshots) + [] == BarriersOf(r.snapshots);
  }

  lemma WorkMoves(dispatched: seq<Indexed>, work: seq<Indexed>)
    requires work != []
    ensures (dispatched + [work[0]]) + work[1..] == dispatched + work
  {
    assert work == [work[0]] + work[1..];
    Assoc(dispatched, [work[0]], work[1..]);
  }

  lemma AlignProcess(c: Config, t: Intake, a: Agenda, r: Record)
    requires AlignOk(c, t, a, r) && a.work != []
    ensures AlignOk(c, t, a.(work := a.work[1..]), r.(dispatched := r.dispatched + [a.work[0]]))
  {
    WorkMoves(r.dispatched, a.work);
  }

  lemma AlignSnapshot(c: Config, t: Intake, a: Agenda, r: Record, snap: Snapshot)
    requires AlignOk(c, t, a, r) && a.barrier == Some(snap.barrier)
    ensures AlignOk(c, t, a.(barrier := None), r.(snapshots := r.snapshots + [snap]))
  {
    assert BarriersOf(r.snapshots + [snap]) + [] == BarriersOf(r.snapshots) + [snap.barrier];
  }

  lemma AlignStep(c: Config, l: Local, s: Step)
    requires Enabled(c, l, s) && AlignOk(c, l.intake, l.agenda, l.record)
    ensures var l' := Apply(c, l, s); AlignOk(c, l'.intake, l'.agenda, l'.record)
  {
    match s {
      case Take => AlignTake(c, l.intake, l.agenda, l.record);
      case Process(_) => AlignProcess(c, l.intake, l.agenda, l.record);
      case TakeSnapshot(state) =>
        AlignSnapshot(c, l.intake, l.agenda, l.record,
                      Snapshot(l.agenda.barrier.value, state, l.record.dispatched, l.agenda.heldBack, l.outs));
      case _ =>
    }
  }

  /** What the `k`-th snapshot (counting from zero) has consumed: on every input the messages in front
      of the input's barrier `k+1`, then those the aligning call released. */
  ghost predicate ConsumedOk(c: Config, fed: seq<Indexed>, k: nat, consumed: seq<Indexed>, heldBack: seq<Indexed>) {
    NoRepeats(c.inputs, fed) ==>
      forall i: nat :: i < c.inputs ==>
        && |Barriers(Stream(fed, i))| >= k + 1
        && Stream(consumed, i) == Cut(Stream(fed, i), k + 1) + Stream(heldBack, i)
  }

  ghost predicate SnapshotsOk(c: Config, fed: seq<Indexed>, a: Agenda, r: Record) {
    && (forall k :: 0 <= k < |r.snapshots| ==>
          ConsumedOk(c, fed, k, r.snapshots[k].consumed, r.snapshots[k].heldBack))
    && (a.barrier.Some? ==> ConsumedOk(c, fed, |r.snapshots|, r.dispatched + a.work, a.heldBack))
    && (c.inputs <= 1 ==>
          && (forall k :: 0 <= k < |r.snapshots| ==> r.snapshots[k].heldBack == [])
          && (a.barrier.Some? ==> a.heldBack == []))
  }

  lemma ConsumedGrow(c: Config, fed: seq<Indexed>, m: Indexed, k: nat, consumed: seq<Indexed>, heldBack: seq<Indexed>)
    requires ConsumedOk(c, fed, k, consumed, heldBack)
    ensures ConsumedOk(c, fed + [m], k, consumed, heldBack)
  {
    assert (fed + [m])[..|fed + [m]| - 1] == fed;
    if NoRepeats(c.inputs, fed + [m]) {
      forall i: nat | i < c.inputs
        ensures |Barriers(Stream(fed + [m], i))| >= k + 1
        ensures Stream(consumed, i) == Cut(Stream(fed + [m], i), k + 1) + Stream(heldBack, i)
      {
        StreamSnoc(fed, m, i);
        if m.input == i {
          CutStable(Stream(fed, i), [m.msg], k + 1);
        }
      }
    }
  }

  lemma ConsumedAligned(c: Config, t: Intake, a: Agenda, r: Record, m: Indexed)
    requires AlignOk(c, t, a, r) && InRange(c.inputs, t.fed + [m]) && a.work == [] && a.barrier.None?
    requires OnMessageSpec(t.aligner, m).aligned.Some?
    ensures var released := OnMessageSpec(t.aligner, m).released;
            ConsumedOk(c, t.fed + [m], |r.snapshots|, r.dispatched + released, released)
  {
    RunSnoc(c.inputs, t.fed, m);
    assert r.dispatched + [] == r.dispatched;
    assert BarriersOf(r.snapshots) + [] == BarriersOf(r.snapshots);
    if NoRepeats(c.inputs, t.fed + [m]) {
      SnapshotIsCutPlusHeld(c.inputs, t.fed, m);
      assert Run(c.inputs, t.fed + [m]).released == r.dispatched + OnMessageSpec(t.aligner, m).released;
    }
  }

  lemma SnapshotsTake(c: Config, t: Intake, a: Agenda, r: Record)
    requires IntakeOk(c, t) && AlignOk(c, t, a, r) && t.merged != [] && a.work == [] && a.barrier.None?
    requires SnapshotsOk(c, t.fed, a, r)
    ensures SnapshotsOk(c, TakeNext(t).0.fed, TakeNext(t).1, r)
  {
    var m := t.merged[0];
    if !m.msg.Watermark? {
      forall k | 0 <= k < |r.snapshots|
        ensures ConsumedOk(c, t.fed + [m], k, r.snapshots[k].consumed, r.snapshots[k].heldBack)
      {
        ConsumedGrow(c, t.fed, m, k, r.snapshots[k].consumed, r.snapshots[k].heldBack);
      }
      if OnMessageSpec(t.aligner, m).aligned.Some? {
        ConsumedAligned(c, t, a, r, m);
      }
    }
  }

  lemma SnapshotsStep(c: Config, l: Local, s: Step)
    requires Enabled(c, l, s) && IntakeOk(c, l.intake) && AlignOk(c, l.intake, l.agenda, l.record)
    requires SnapshotsOk(c, l.intake.fed, l.agenda, l.record)
    ensures var l' := Apply(c, l, s); SnapshotsOk(c, l'.intake.fed, l'.agenda, l'.record)
  {
    match s {
      case Take => SnapshotsTake(c, l.intake, l.agenda, l.record);
      case Process(_) => SnapshotsProcess(c, l.intake.fed, l.agenda, l.record);
      case TakeSnapshot(state) => SnapshotsSnapshot(c, l.intake.fed, l.agenda, l.record, state, l.outs);
      case _ =>
    }
  }

  lemma SnapshotsProcess(c: Config, fed: seq<Indexed>, a: Agenda, r: Record)
    requires SnapshotsOk(c, fed, a, r) && a.work != []
    ensures SnapshotsOk(c, fed, a.(work := a.work[1..]), r.(dispatched := r.dispatched + [a.work[0]]))
  {
    WorkMoves(r.dispatched, a.work);
  }

  lemma SnapshotsSnapshot(c: Config, fed: seq<Indexed>, a: Agenda, r: Record, state: Bytes,
                          outs: seq<seq<Message>>)
    requires SnapshotsOk(c, fed, a, r) && a.work == [] && a.barrier.Some?
    ensures var snap := Snapshot(a.barrier.value, state, r.dispatched, a.heldBack, outs);
            SnapshotsOk(c, fed, a.(barrier := None), r.(snapshots := r.snapshots + [snap]))
  {
    assert r.dispatched + [] == r.dispatched;
  }

  // ---------------------------------------------------------------- outputs

  /** Everything sent on an output, then what the current handler is about to send on it. */
  ghost function Promised(l: Local, j: nat): seq<Message>
    requires j < |l.outs|
  {
    l.outs[j] + Stream(l.sends, j)
  }

  /** The barriers on an output are those of the snapshots, and each snapshot's barrier follows
      immediately on what had been sent when the snapshot was taken. */
  ghost predicate OutputOk(sent: seq<Message>, promised: seq<Message>, snaps: seq<Snapshot>, j: nat) {
    && Barriers(promised) == BarriersOf(snaps)
    && forall k :: 0 <= k < |snaps| ==>
         && j < |snaps[k].sentBefore| && snaps[k].sentBefore[j] <= sent
         && NonBarriers(snaps[k].sentBefore[j]) == Cut(promised, k + 1)
  }

  lemma OutputGrow(sent: seq<Message>, sent': seq<Message>, promised: seq<Message>, more: seq<Message>,
        snaps: seq<Snapshot>, j: nat)
    requires OutputOk(sent, promised, snaps, j) && Barriers(more) == [] && sent <= sent'
    ensures OutputOk(sent', promised + more, snaps, j)
  {
    forall k | 0 <= k < |snaps|
      ensures NonBarriers(snaps[k].sentBefore[j]) == Cut(promised + more, k + 1)
    {
      CutStable(promised, more, k + 1);
    }
    BarriersAppend(promised, more);
  }

  lemma OutputSnapshot(sent: seq<Message>, snaps: seq<Snapshot>, snap: Snapshot, j: nat)
    requires OutputOk(sent, sent, snaps, j) && j < |snap.sentBefore| && snap.sentBefore[j] == sent
    ensures OutputOk(sent, sent + [Barrier(snap.barrier)], snaps + [snap], j)
  {
    var more := snaps + [snap];
    BarriersSnoc(sent, Barrier(snap.barrier));
    BarriersOfSnoc(snaps, snap);
    forall k | 0 <= k < |more|
      ensures j < |more[k].sentBefore| && more[k].sentBefore[j] <= sent
      ensures NonBarriers(more[k].sentBefore[j]) == Cut(sent + [Barrier(snap.barrier)], k + 1)
    {
      CutSnoc(sent, Barrier(snap.barrier), k + 1);
      if k == |snaps| {
        CutOpen(sent, k + 1);
      } else {
        assert more[k] == snaps[k];
      }
    }
  }

  lemma BarriersOfSnoc(snaps: seq<Snapshot>, snap: Snapshot)
    ensures BarriersOf(snaps + [snap]) == BarriersOf(snaps) + [snap.barrier]
  {
  }

  lemma {:induction false} BarriersAppend(s: seq<Message>, u: seq<Message>)
    ensures Barriers(s + u) == Barriers(s) + Barriers(u)
  {
    if u == [] {
      assert s + u == s;
    } else {
      var front, last := u[..|u| - 1], u[|u| - 1];
      BarriersAppend(s, front);
      assert s + u == (s + front) + [last];
      BarriersSnoc(s + front, last);
      if last.Barrier? {
        Assoc(Barriers(s), Barriers(front), [last.barrier]);
      }
    }
  }

  /** What a step adds to the end of what an output was promised. */
  ghost function Added(c: Config, l: Local, s: Step, j: nat): seq<Message>
    requires Enabled(c, l, s)
  {
    match s
    case SourceSend(k, m) => if k == j then [m] else []
    case Process(emits) => Stream(emits, j)
    case TakeSnapshot(_) => [Barrier(l.agenda.barrier.value)]
    case AdvanceWatermark(emits) => Stream(emits, j) + [Watermark(l.agenda.advance.value)]
    case FireTimers(emits) => Stream(emits, j)
    case Drain => [Stop]
    case WorkerEmit(k, m) => if k == j then [m] else []
    case _ => []
  }

  /** The handler has something new to send. */
  predicate Announces(s: Step) {
    s.Process? || s.TakeSnapshot? || s.AdvanceWatermark? || s.FireTimers? || s.Drain?
  }

  lemma AnnouncedIsAdded(c: Config, l: Local, s: Step, j: nat)
    requires Enabled(c, l, s) && Announces(s) && j < c.outputs
    ensures l.sends == [] && Apply(c, l, s).outs == l.outs && Stream(Apply(c, l, s).sends, j) == Added(c, l, s, j)
  {
    match s {
      case TakeSnapshot(_) => BroadcastStream(c.outputs, Barrier(l.agenda.barrier.value), j);
      case Drain => BroadcastStream(c.outputs, Stop, j);
      case AdvanceWatermark(emits) =>
        BroadcastStream(c.outputs, Watermark(l.agenda.advance.value), j);
        StreamAppend(emits, Broadcast(c.outputs, Watermark(l.agenda.advance.value)), j);
      case _ =>
    }
  }

  /** A source or a worker sends by itself, while the handler sends nothing. */
  lemma PushedIsAdded(c: Config, l: Local, s: Step, j: nat)
    requires ShapeOk(c, l) && Enabled(c, l, s) && j < c.outputs && (s.SourceSend? || s.WorkerEmit?)
    ensures l.sends == [] && Apply(c, l, s).sends == [] && |Apply(c, l, s).outs| == c.outputs
    ensures Apply(c, l, s).outs[j] == l.outs[j] + Added(c, l, s, j)
  {
  }

  /** A send moves a message from what is promised to what is sent. */
  lemma SendKeepsPromise(c: Config, l: Local, j: nat)
    requires ShapeOk(c, l) && Enabled(c, l, Send) && j < c.outputs
    ensures |Apply(c, l, Send).outs| == c.outputs && Promised(Apply(c, l, Send), j) == Promised(l, j)
    ensures l.outs[j] <= Apply(c, l, Send).outs[j]
  {
    PromisedSend(l.outs[j], l.sends, j);
    assert Apply(c, l, Send).outs[j] == Deliver(l.outs[j], l.sends[0], j);
  }

  /** No step takes anything back or sends out of order. */
  lemma PromisedGrows(c: Config, l: Local, s: Step, j: nat)
    requires ShapeOk(c, l) && Enabled(c, l, s) && j < c.outputs
    ensures |Apply(c, l, s).outs| == c.outputs
    ensures Promised(Apply(c, l, s), j) == Promised(l, j) + Added(c, l, s, j)
    ensures l.outs[j] <= Apply(c, l, s).outs[j]
  {
    var added := Added(c, l, s, j);
    if Announces(s) {
      AnnouncedIsAdded(c, l, s, j);
      Assoc(l.outs[j], [], added);
    } else if s.SourceSend? || s.WorkerEmit? {
      PushedIsAdded(c, l, s, j);
      Assoc(l.outs[j], [], []);
      Assoc(l.outs[j] + added, [], []);
    } else if s.Send? {
      SendKeepsPromise(c, l, j);
      Assoc(Promised(l, j), [], []);
    } else {
      Assoc(Promised(l, j), [], []);
    }
  }

  lemma PromisedSend(sent: seq<Message>, sends: seq<Indexed>, j: nat)
    requires sends != []
    ensures Deliver(sent, sends[0], j) + Stream(sends[1..], j) == sent + Stream(sends, j)
  {
    TakeFirst(sends, j);
    Assoc(sent, [sends[0].msg], Stream(sends[1..], j));
    Assoc([], [], Stream(sends[1..], j));
  }

  lemma {:induction false} BroadcastStream(outputs: nat, m: Message, j: nat)
    ensures Stream(Broadcast(outputs, m), j) == if j < outputs then [m] else []
  {
    if outputs == 0 {
    } else {
      var b := Broadcast(outputs, m);
      assert b[..|b| - 1] == Broadcast(outputs - 1, m);
      BroadcastStream(outputs - 1, m, j);
    }
  }

  ghost predicate AllData(s: seq<Message>) {
    forall a :: 0 <= a < |s| ==> s[a].Data?
  }

  lemma {:induction false} EmitsAreData(c: Config, emits: seq<Indexed>, j: nat)
    requires EmitsOk(c, emits)
    ensures AllData(Stream(emits, j))
  {
    if emits == [] {
    } else {
      EmitsAreData(c, emits[..|emits| - 1], j);
    }
  }

  lemma {:induction false} DataHasNoBarriers(s: seq<Message>)
    requires forall a :: 0 <= a < |s| ==> !s[a].Barrier?
    ensures Barriers(s) == []
  {
    if s == [] {
    } else {
      DataHasNoBarriers(s[..|s| - 1]);
    }
  }

  /** Every step of a node with inputs adds data, at most one watermark at the end, or a single signal. */
  lemma AddedShape(c: Config, l: Local, s: Step, j: nat)
    requires ShapeOk(c, l) && Enabled(c, l, s) && c.inputs > 0 && j < c.outputs
    ensures var x := Added(c, l, s, j);
            match s
            case TakeSnapshot(_) => x == [Barrier(l.agenda.barrier.value)]
            case Drain => x == [Stop]
            case AdvanceWatermark(_) =>
              |x| > 0 && AllData(x[..|x| - 1]) && x[|x| - 1] == Watermark(l.agenda.advance.value)
            case _ => AllData(x)
  {
    match s {
      case Process(emits) => EmitsAreData(c, emits, j);
      case FireTimers(emits) => EmitsAreData(c, emits, j);
      case AdvanceWatermark(emits) =>
        EmitsAreData(c, emits, j);
        assert (Stream(emits, j) + [Watermark(l.agenda.advance.value)])[..|Stream(emits, j)|] == Stream(emits, j);
      case _ =>
    }
  }

  lemma AddsNoBarrier(c: Config, l: Local, s: Step, j: nat)
    requires ShapeOk(c, l) && Enabled(c, l, s) && c.inputs > 0 && j < c.outputs && !s.TakeSnapshot?
    ensures Barriers(Added(c, l, s, j)) == []
  {
    AddedShape(c, l, s, j);
    DataHasNoBarriers(Added(c, l, s, j));
  }

  lemma OutputAtSnapshot(c: Config, l: Local, state: Bytes, j: nat)
    requires ShapeOk(c, l) && Enabled(c, l, TakeSnapshot(state)) && j < c.outputs
    requires OutputOk(l.outs[j], Promised(l, j), l.record.snapshots, j)
    ensures var l' := Apply(c, l, TakeSnapshot(state));
            |l'.outs| == c.outputs && OutputOk(l'.outs[j], Promised(l', j), l'.record.snapshots, j)
  {
    PromisedGrows(c, l, TakeSnapshot(state), j);
    Assoc(l.outs[j], [], []);
    OutputSnapshot(l.outs[j], l.record.snapshots,
                   Snapshot(l.agenda.barrier.value, state, l.record.dispatched, l.agenda.heldBack, l.outs), j);
  }

  lemma OutputStep(c: Config, l: Local, s: Step, j: nat)
    requires ShapeOk(c, l) && Enabled(c, l, s) && c.inputs > 0 && j < c.outputs
    requires OutputOk(l.outs[j], Promised(l, j), l.record.snapshots, j)
    ensures var l' := Apply(c, l, s);
            |l'.outs| == c.outputs && OutputOk(l'.outs[j], Promised(l', j), l'.record.snapshots, j)
  {
    if s.TakeSnapshot? {
      OutputAtSnapshot(c, l, s.state, j);
    } else {
      PromisedGrows(c, l, s, j);
      AddsNoBarrier(c, l, s, j);
      OutputGrow(l.outs[j], Apply(c, l, s).outs[j], Promised(l, j), Added(c, l, s, j), l.record.snapshots, j);
    }
  }

  // ---------------------------------------------------------------- watermarks

  /** The watermarks among some messages. */
  function Marks(s: seq<Message>): seq<WatermarkSignal> {
    if s == [] then []
    else if s[|s| - 1].Watermark? then Marks(s[..|s| - 1]) + [s[|s| - 1].watermark]
    else Marks(s[..|s| - 1])
  }

  lemma MarksSnoc(s: seq<Message>, m: Message)
    ensures Marks(s + [m]) == if m.Watermark? then Marks(s) + [m.watermark] else Marks(s)
  {
    assert (s + [m])[..|s + [m]| - 1] == s;
  }

  lemma {:induction false} MarksAppend(s: seq<Message>, u: seq<Message>)
    ensures Marks(s + u) == Marks(s) + Marks(u)
  {
    if u == [] {
      Assoc(s, [], []);
    } else {
      var front, last := u[..|u| - 1], u[|u| - 1];
      MarksAppend(s, front);
      SplitLast(u);
      Assoc(s, front, [last]);
      MarksSnoc(s + front, last);
      MarksSnoc(front, last);
      if last.Watermark? {
        Assoc(Marks(s), Marks(front), [last.watermark]);
      }
    }
  }

  /** The watermarks among what the loop has taken, each with the input it came from. */
  function ReportsOf(t: seq<Indexed>): seq<Watermarks.Report> {
    if t == [] then [] else ReportedNext(ReportsOf(t[..|t| - 1]), t[|t| - 1])
  }

  function ReportedNext(rs: seq<Watermarks.Report>, m: Indexed): seq<Watermarks.Report> {
    if m.msg.Watermark? then rs + [Watermarks.Report(m.input, m.msg.watermark)] else rs
  }

  lemma ReportsSnoc(t: seq<Indexed>, m: Indexed)
    ensures ReportsOf(t + [m]) == ReportedNext(ReportsOf(t), m)
  {
    assert (t + [m])[..|t + [m]| - 1] == t;
  }

  /** The reports of one input. */
  function ReportsFrom(rs: seq<Watermarks.Report>, i: nat): seq<WatermarkSignal> {
    if rs == [] then []
    else if rs[|rs| - 1].input == i then ReportsFrom(rs[..|rs| - 1], i) + [rs[|rs| - 1].wm]
    else ReportsFrom(rs[..|rs| - 1], i)
  }

  /** They are the watermarks that the input delivered, in order. */
  lemma {:induction false} ReportsAreDelivered(t: seq<Indexed>, i: nat)
    ensures ReportsFrom(ReportsOf(t), i) == Marks(Stream(t, i))
  {
    if t == [] {
    } else {
      var front, m := t[..|t| - 1], t[|t| - 1];
      ReportsAreDelivered(front, i);
      MarksSnoc(Stream(front, i), m.msg);
      if m.msg.Watermark? {
        var rs, r := ReportsOf(front), Watermarks.Report(m.input, m.msg.watermark);
        assert (rs + [r])[..|rs|] == rs;
      }
    }
  }

  /** What the reports make a node's holder do. */
  function HolderRun(c: Config, t: Intake): Watermarks.History {
    Watermarks.Run(AtLeastOne(c.inputs), ReportsOf(t.arrived))
  }

  ghost predicate HolderOk(c: Config, t: Intake) {
    t.holder == HolderRun(c, t).holder
  }

  function MaybeMark(w: Option<WatermarkSignal>): seq<WatermarkSignal> {
    if w.Some? then [w.value] else []
  }

  /** Every watermark the holder has emitted is on the output or about to be sent there, in order, and no other. */
  ghost predicate MarksOk(c: Config, t: Intake, advance: Option<WatermarkSignal>, promised: seq<Message>) {
    Marks(promised) + MaybeMark(advance) == HolderRun(c, t).emitted
  }

  lemma HolderReports(n: nat, rs: seq<Watermarks.Report>, m: Indexed, h: Watermarks.Holder)
    requires m.msg.Watermark? && h == Watermarks.Run(n, rs).holder
    ensures var a := Watermarks.UpdateSpec(h, m.input, m.msg.watermark);
            && Watermarks.Run(n, ReportedNext(rs, m)).holder == a.holder
            && Watermarks.Run(n, ReportedNext(rs, m)).emitted == Watermarks.Run(n, rs).emitted + MaybeMark(a.emitted)
  {
    Watermarks.RunSnoc(n, rs, Watermarks.Report(m.input, m.msg.watermark));
    Assoc(Watermarks.Run(n, rs).emitted, [], []);
  }

  lemma HolderTake(c: Config, t: Intake)
    requires HolderOk(c, t) && t.merged != []
    ensures HolderOk(c, TakeNext(t).0)
    ensures HolderRun(c, TakeNext(t).0).emitted == HolderRun(c, t).emitted + MaybeMark(TakeNext(t).1.advance)
  {
    var m := t.merged[0];
    ReportsSnoc(t.arrived, m);
    if m.msg.Watermark? {
      HolderReports(AtLeastOne(c.inputs), ReportsOf(t.arrived), m, t.holder);
    } else {
      Assoc(HolderRun(c, t).emitted, [], []);
    }
  }

  lemma HolderStep(c: Config, l: Local, s: Step)
    requires HolderOk(c, l.intake) && Enabled(c, l, s)
    ensures HolderOk(c, Apply(c, l, s).intake)
  {
    if s.Take? {
      HolderTake(c, l.intake);
    }
  }

  lemma {:induction false} NoMarks(s: seq<Message>)
    requires forall a :: 0 <= a < |s| ==> !s[a].Watermark?
    ensures Marks(s) == []
  {
    if s == [] {
    } else {
      NoMarks(s[..|s| - 1]);
    }
  }

  /** A step adds to an output the watermark it advances, and no other. */
  lemma AddedMarks(c: Config, l: Local, s: Step, j: nat)
    requires ShapeOk(c, l) && Enabled(c, l, s) && c.inputs > 0 && j < c.outputs
    ensures Marks(Added(c, l, s, j)) == if s.AdvanceWatermark? then [l.agenda.advance.value] else []
  {
    AddedShape(c, l, s, j);
    var x := Added(c, l, s, j);
    if s.AdvanceWatermark? {
      SplitLast(x);
      NoMarks(x[..|x| - 1]);
      MarksSnoc(x[..|x| - 1], x[|x| - 1]);
    } else {
      NoMarks(x);
    }
  }

  lemma WatermarkStep(c: Config, l: Local, s: Step, j: nat)
    requires ShapeOk(c, l) && Enabled(c, l, s) && c.inputs > 0 && j < c.outputs && HolderOk(c, l.intake)
    requires MarksOk(c, l.intake, l.agenda.advance, Promised(l, j))
    ensures var l' := Apply(c, l, s);
            |l'.outs| == c.outputs && MarksOk(c, l'.intake, l'.agenda.advance, Promised(l', j))
  {
    var before := Marks(Promised(l, j));
    PromisedGrows(c, l, s, j);
    AddedMarks(c, l, s, j);
    MarksAppend(Promised(l, j), Added(c, l, s, j));
    Assoc(before, [], []);
    if s.Take? {
      HolderTake(c, l.intake);
    } else if s.AdvanceWatermark? {
      Assoc(before, [l.agenda.advance.value], []);
    }
  }

  ghost predicate WatermarksIncrease(s: seq<Message>) {
    forall a, b :: 0 <= a < b < |s| && s[a].Watermark? && s[b].Watermark? ==>
      s[a].watermark.eventTime < s[b].watermark.eventTime
  }

  lemma {:induction false} MarkListed(s: seq<Message>, a: nat)
    requires a < |s| && s[a].Watermark?
    ensures s[a].watermark in Marks(s)
  {
    if a == |s| - 1 {
    } else {
      MarkListed(s[..|s| - 1], a);
    }
  }

  lemma {:induction false} IncreasingMarks(s: seq<Message>)
    requires Watermarks.StrictlyIncreasing(Marks(s))
    ensures WatermarksIncrease(s)
  {
    if s == [] {
    } else {
      var front, last := s[..|s| - 1], s[|s| - 1];
      MarksSnoc(front, last);
      SplitLast(s);
      assert forall i :: 0 <= i < |Marks(front)| ==> Marks(s)[i] == Marks(front)[i];
      IncreasingMarks(front);
      forall a: nat | a < |front| && s[a].Watermark? && last.Watermark?
        ensures s[a].watermark.eventTime < last.watermark.eventTime
      {
        MarkListed(front, a);
        var i :| 0 <= i < |Marks(front)| && Marks(front)[i] == s[a].watermark;
        assert Marks(s)[i] == s[a].watermark && Marks(s)[|Marks(front)|] == last.watermark;
      }
    }
  }
}
