/** ConcurrentOperator (internal/engine/concurrent.go): one dispatcher and a pool of workers, as
    interleaved steps. The dispatcher is the node's goroutine, which calls the operator's methods one
    after the other. */
module WorkerPool {
  import opened Messages

  type Error = string

  /** What has become of a message offered to ProcessMessage. */
  datatype Stage =
    | Offered
    | Rejected
    | Launched            // its goroutine exists
    | Running             // inside the inner operator
    | Failed(err: Error)  // the inner call returned an error that is not recorded yet
    | Settled             // about to give back its slot
    | Released            // about to leave the wait group
    | Done

  datatype Call = ForWatermark | ForCheckpoint | ForDrain | ForClose

  datatype Phase =
    | Idle
    | Checking            // before looking at lastErr
    | Acquiring           // blocked on a slot
    | Holding             // owns a slot
    | Counted             // has added to the wait group
    | Waiting(call: Call) // blocked on the wait group
    | Clear(call: Call)   // before drainError
    | Inside(call: Call)  // the call proceeds

  /** `reply` is what the method call that ended last returned to the runtime. */
  datatype Pool = Pool(
    stages: seq<Stage>,
    phase: Phase,
    sem: int,
    wg: int,
    lastErr: Option<Error>,
    reply: Option<Error>)

  /** ProcessMessage looked for an error: those recorded since the last drain, and what came of it. */
  datatype Check = Check(recorded: seq<Error>, refused: bool, reply: Option<Error>)

  /** A drain: the errors that inner calls had returned, and recorded, since the drain before, and what came of it. */
  datatype Drained = Drained(returned: seq<Error>, recorded: seq<Error>, proceeds: bool, reply: Option<Error>)

  /** How a call other than ProcessMessage ended: the context was cancelled while it waited, an error was held, or
      the inner operator's method returned. */
  datatype Ending = Interrupted | Held(recorded: seq<Error>) | Through(inner: Option<Error>)

  /** What a call returned: the error, or nothing. */
  datatype Answer =
    | ToMessage(message: nat, reply: Option<Error>)
    | ToCall(call: Call, ending: Ending, reply: Option<Error>)

  /** What all calls returned, the inner calls made, errors returned and recorded since the last drain, all checks
      and all drains. */
  datatype Log = Log(
    answers: seq<Answer>,
    calls: seq<nat>,
    returned: seq<Error>,
    recorded: seq<Error>,
    checks: seq<Check>,
    drains: seq<Drained>)

  /** What ctx.Err() gives. */
  const CANCELLED: Error := "context canceled"

  datatype Step =
    | Offer | CheckError | Acquire | Cancel | Add | Go
    | Wait(call: Call) | Proceed | DrainError | Leave(inner: Option<Error>)
    | Begin(worker: nat) | Return(worker: nat, err: Option<Error>)
          | Record(worker: nat) | Release(worker: nat) | Finish(worker: nat)

  predicate At(p: Pool, i: nat, s: Stage) {
    i < |p.stages| && p.stages[i] == s
  }

  predicate Enabled(limit: nat, p: Pool, s: Step) {
    match s
    case Offer => p.phase.Idle?
    case CheckError => p.phase.Checking? && p.stages != []
    case Acquire => p.phase.Acquiring? && p.sem < limit
    case Cancel => (p.phase.Acquiring? && p.stages != []) || p.phase == Waiting(ForDrain)
    case Add => p.phase.Holding?
    case Go => p.phase.Counted? && p.stages != []
    case Wait(_) => p.phase.Idle?
    case Proceed => p.phase.Waiting? && p.wg == 0
    case DrainError => p.phase.Clear?
    case Leave(inner) => p.phase.Inside? && (p.phase.call.ForDrain? ==> inner.None?)
    case Begin(i) => At(p, i, Launched)
    case Return(i, _) => At(p, i, Running)
    case Record(i) => i < |p.stages| && p.stages[i].Failed?
    case Release(i) => At(p, i, Settled)
    case Finish(i) => At(p, i, Released)
  }

  function Last(p: Pool, s: Stage): seq<Stage>
    requires p.stages != []
  {
    p.stages[|p.stages| - 1 := s]
  }

  function Apply(limit: nat, p: Pool, s: Step): Pool
    requires Enabled(limit, p, s)
  {
    match s
    case Offer => p.(stages := p.stages + [Offered], phase := Checking)
    case CheckError =>
      if p.lastErr.Some? then p.(stages := Last(p, Rejected), phase := Idle, reply := p.lastErr)
      else p.(phase := Acquiring)
    case Acquire => p.(phase := Holding, sem := p.sem + 1)
    case Cancel =>
      if p.phase.Acquiring? then p.(stages := Last(p, Rejected), phase := Idle, reply := Some(CANCELLED))
      else p.(phase := Idle, reply := Some(CANCELLED))
    case Add => p.(phase := Counted, wg := p.wg + 1)
    case Go => p.(stages := Last(p, Launched), phase := Idle, reply := None)
    case Wait(call) => p.(phase := Waiting(call))
    case Proceed => p.(phase := Clear(p.phase.call))
    case DrainError =>
      if p.phase.call.ForClose? then p.(phase := Inside(p.phase.call))
      else if p.lastErr.Some? then p.(phase := Idle, lastErr := None, reply := p.lastErr)
      else p.(phase := Inside(p.phase.call))
    case Leave(inner) => p.(phase := Idle, reply := inner)
    case Begin(i) => p.(stages := p.stages[i := Running])
    case Return(i, err) => p.(stages := p.stages[i := if err.None? then Settled else Failed(err.value)])
    case Record(i) =>
      p.(stages := p.stages[i := Settled], lastErr := if p.lastErr.None? then Some(p.stages[i].err) else p.lastErr)
    case Release(i) => p.(stages := p.stages[i := Released], sem := p.sem - 1)
    case Finish(i) => p.(stages := p.stages[i := Done], wg := p.wg - 1)
  }

  /** What is returned when a step ends a call. */
  function AnswerOf(p: Pool, l: Log, s: Step, q: Pool): seq<Answer>
  {
    if p.phase.Idle? || !q.phase.Idle? then []
    else match s
      case Leave(inner) => if p.phase.Inside? then [ToCall(p.phase.call, Through(inner), q.reply)] else []
      case DrainError => if p.phase.Clear? then [ToCall(p.phase.call, Held(l.recorded), q.reply)] else []
      case Cancel =>
        if p.phase.Waiting? then [ToCall(p.phase.call, Interrupted, q.reply)]
        else if |p.stages| > 0 then [ToMessage(|p.stages| - 1, q.reply)] else []
      case _ => if |p.stages| > 0 then [ToMessage(|p.stages| - 1, q.reply)] else []
  }

  function Note(limit: nat, p: Pool, l: Log, s: Step): Log
    requires Enabled(limit, p, s)
  {
    var q := Apply(limit, p, s);
    match s
    case Begin(i) => l.(calls := l.calls + [i])
    case Return(_, Some(e)) => l.(returned := l.returned + [e])
    case Record(i) => l.(recorded := l.recorded + [p.stages[i].err])
    case CheckError =>
      l.(checks := l.checks + [Check(l.recorded, q.phase.Idle?, q.reply)], answers := l.answers + AnswerOf(p, l, s, q))
    case DrainError =>
      if p.phase.call.ForClose? then l
      else
        var d := Drained(l.returned, l.recorded, q.phase.Inside?, q.reply);
        Log(l.answers + AnswerOf(p, l, s, q), l.calls, [], [], l.checks, l.drains + [d])
    case Cancel => l.(answers := l.answers + AnswerOf(p, l, s, q))
    case Go => l.(answers := l.answers + AnswerOf(p, l, s, q))
    case Leave(_) => l.(answers := l.answers + AnswerOf(p, l, s, q))
    case _ => l
  }

  // ---------------------------------------------------------------- runs

  /** Every interleaving; a step that is not enabled does nothing. */
  datatype Run = Start | Then(before: Run, step: Step)

  ghost function Final(limit: nat, r: Run): Pool {
    if r.Start? then Pool([], Idle, 0, 0, None, None)
    else if Enabled(limit, Final(limit, r.before), r.step) then Apply(limit, Final(limit, r.before), r.step)
    else Final(limit, r.before)
  }

  ghost function History(limit: nat, r: Run): Log {
    if r.Start? then Log([], [], [], [], [], [])
    else if Enabled(limit, Final(limit, r.before), r.step) then
          Note(limit, Final(limit, r.before), History(limit, r.before), r.step)
    else History(limit, r.before)
  }

  // ---------------------------------------------------------------- counting

  /** Owns a slot of the semaphore. */
  function Slot(s: Stage): nat {
    if s.Launched? || s.Running? || s.Failed? || s.Settled? then 1 else 0
  }

  /** Is counted by the wait group. */
  function Member(s: Stage): nat {
    if Slot(s) == 1 || s.Released? then 1 else 0
  }

  function InInner(s: Stage): nat {
    if s.Running? then 1 else 0
  }

  /** The errors returned and not recorded. */
  function Unrecorded(ss: seq<Stage>): multiset<Error> {
    if ss == [] then multiset{} else Unrecorded(ss[..|ss| - 1]) + ErrorOf(ss[|ss| - 1])
  }

  function ErrorOf(s: Stage): multiset<Error> {
    if s.Failed? then multiset{s.err} else multiset{}
  }

  lemma UnrecordedSnoc(ss: seq<Stage>, s: Stage)
    ensures Unrecorded(ss + [s]) == Unrecorded(ss) + ErrorOf(s)
  {
    assert (ss + [s])[..|ss|] == ss;
  }

  lemma Swap(x: multiset<Error>, a: multiset<Error>, b: multiset<Error>)
    ensures (x + a) + b == (x + b) + a
  {
  }

  lemma UnrecordedUpdateLast(ss: seq<Stage>, s: Stage)
    requires ss != []
    ensures var i := |ss| - 1; Unrecorded(ss[i := s]) + ErrorOf(ss[i]) == Unrecorded(ss) + ErrorOf(s)
  {
    var n, t := |ss| - 1, ss[|ss| - 1 := s];
    assert t[..n] == ss[..n];
    Swap(Unrecorded(ss[..n]), ErrorOf(s), ErrorOf(ss[n]));
  }

  lemma UnrecordedUpdateFront(ss: seq<Stage>, i: nat, s: Stage)
    requires i < |ss| - 1
    requires Unrecorded(ss[..|ss| - 1][i := s]) + ErrorOf(ss[i]) == Unrecorded(ss[..|ss| - 1]) + ErrorOf(s)
    ensures Unrecorded(ss[i := s]) + ErrorOf(ss[i]) == Unrecorded(ss) + ErrorOf(s)
  {
    var n, t := |ss| - 1, ss[i := s];
    assert t[..n] == ss[..n][i := s];
    Swap(Unrecorded(t[..n]), ErrorOf(ss[n]), ErrorOf(ss[i]));
    Swap(Unrecorded(ss[..n]), ErrorOf(ss[n]), ErrorOf(s));
  }

  lemma {:induction false} UnrecordedUpdate(ss: seq<Stage>, i: nat, s: Stage)
    requires i < |ss|
    ensures Unrecorded(ss[i := s]) + ErrorOf(ss[i]) == Unrecorded(ss) + ErrorOf(s)
  {
    if i == |ss| - 1 {
      UnrecordedUpdateLast(ss, s);
    } else {
      UnrecordedUpdate(ss[..|ss| - 1], i, s);
      UnrecordedUpdateFront(ss, i, s);
    }
  }

  /** When no worker is counted, nothing waits to be recorded. */
  lemma {:induction false} AllRecorded(ss: seq<Stage>)
    requires Sum(ss, Member) == 0
    ensures Unrecorded(ss) == multiset{}
  {
    if ss == [] {
    } else {
      AllRecorded(ss[..|ss| - 1]);
    }
  }

  function Sum(ss: seq<Stage>, f: Stage -> nat): nat {
    if ss == [] then 0 else Sum(ss[..|ss| - 1], f) + f(ss[|ss| - 1])
  }

  lemma SumSnoc(ss: seq<Stage>, s: Stage, f: Stage -> nat)
    ensures Sum(ss + [s], f) == Sum(ss, f) + f(s)
  {
    assert (ss + [s])[..|ss|] == ss;
  }

  lemma {:induction false} SumUpdate(ss: seq<Stage>, i: nat, s: Stage, f: Stage -> nat)
    requires i < |ss|
    ensures Sum(ss[i := s], f) == Sum(ss, f) - f(ss[i]) + f(s)
  {
    var n := |ss| - 1;
    if i == n {
      assert ss[i := s][..n] == ss[..n];
    } else {
      assert ss[i := s][..n] == ss[..n][i := s];
      SumUpdate(ss[..n], i, s, f);
    }
  }

  lemma {:induction false} SumBounds(ss: seq<Stage>, f: Stage -> nat, g: Stage -> nat)
    requires forall s :: f(s) <= g(s)
    ensures Sum(ss, f) <= Sum(ss, g)
  {
    if ss == [] {
    } else {
      SumBounds(ss[..|ss| - 1], f, g);
    }
  }

  lemma {:induction false} SumZero(ss: seq<Stage>, f: Stage -> nat, i: nat)
    requires i < |ss|
    ensures f(ss[i]) <= Sum(ss, f)
  {
    if i < |ss| - 1 {
      SumZero(ss[..|ss| - 1], f, i);
    }
  }

  lemma {:induction false} SumPositive(ss: seq<Stage>, f: Stage -> nat) returns (i: nat)
    requires Sum(ss, f) > 0
    ensures i < |ss| && f(ss[i]) > 0
  {
    if f(ss[|ss| - 1]) > 0 {
      return |ss| - 1;
    }
    i := SumPositive(ss[..|ss| - 1], f);
  }

  // ---------------------------------------------------------------- the invariant

  predicate Pending(ph: Phase) {
    ph.Checking? || ph.Acquiring? || ph.Holding? || ph.Counted?
  }

  /** Only the message being dispatched is undecided. */
  ghost predicate PhaseOk(p: Pool) {
    && (Pending(p.phase) ==> p.stages != [] && p.stages[|p.stages| - 1].Offered?)
    && (forall i :: 0 <= i < |p.stages| && p.stages[i].Offered? ==> Pending(p.phase) && i == |p.stages| - 1)
  }

  /** The slot the dispatcher owns until a worker takes it over. */
  function OwnSlot(ph: Phase): nat {
    if ph.Holding? || ph.Counted? then 1 else 0
  }

  function OwnCount(ph: Phase): nat {
    if ph.Counted? then 1 else 0
  }

  ghost predicate CountsOk(limit: nat, p: Pool) {
    && p.sem == Sum(p.stages, Slot) + OwnSlot(p.phase) <= limit
    && p.wg == Sum(p.stages, Member) + OwnCount(p.phase)
    && (p.phase.Clear? || p.phase.Inside? ==> p.wg == 0)
  }

  function First(errs: seq<Error>): Option<Error> {
    if errs == [] then None else Some(errs[0])
  }

  /** The first error recorded since the last drain is held, and every error returned since then is recorded
      or about to be. */
  ghost predicate ErrorsOk(p: Pool, l: Log) {
    p.lastErr == First(l.recorded) && multiset(l.returned) == multiset(l.recorded) + Unrecorded(p.stages)
  }

  lemma PhaseStep(limit: nat, p: Pool, s: Step)
    requires PhaseOk(p) && Enabled(limit, p, s)
    ensures PhaseOk(Apply(limit, p, s))
  {
  }

  datatype Change = Nothing | Change(i: nat, to: Stage)

  /** Whose stage a step other than Offer changes, and to what. */
  function Changes(p: Pool, s: Step): Change {
    match s
    case CheckError => if p.lastErr.Some? && p.stages != [] then Change(|p.stages| - 1, Rejected) else Nothing
    case Cancel => if p.phase.Acquiring? && p.stages != [] then Change(|p.stages| - 1, Rejected) else Nothing
    case Go => if p.stages != [] then Change(|p.stages| - 1, Launched) else Nothing
    case Begin(i) => Change(i, Running)
    case Return(i, err) => Change(i, if err.None? then Settled else Failed(err.value))
    case Record(i) => Change(i, Settled)
    case Release(i) => Change(i, Released)
    case Finish(i) => Change(i, Done)
    case _ => Nothing
  }

  lemma StageEffect(limit: nat, p: Pool, s: Step)
    requires Enabled(limit, p, s)
    ensures s.Offer? ==> Apply(limit, p, s).stages == p.stages + [Offered]
    ensures !s.Offer? && Changes(p, s).Nothing? ==> Apply(limit, p, s).stages == p.stages
    ensures Changes(p, s).Change? ==> Changes(p, s).i < |p.stages|
    ensures Changes(p, s).Change? ==> Apply(limit, p, s).stages == p.stages[Changes(p, s).i := Changes(p, s).to]
  {
  }

  /** How a step changes a count of stages. */
  ghost function Delta(limit: nat, p: Pool, s: Step, f: Stage -> nat): int
    requires Enabled(limit, p, s)
  {
    StageEffect(limit, p, s);
    if s.Offer? then f(Offered)
    else if Changes(p, s).Nothing? then 0
    else f(Changes(p, s).to) - f(p.stages[Changes(p, s).i])
  }

  lemma SumStep(limit: nat, p: Pool, s: Step, f: Stage -> nat)
    requires Enabled(limit, p, s)
    ensures Sum(Apply(limit, p, s).stages, f) == Sum(p.stages, f) + Delta(limit, p, s, f)
  {
    StageEffect(limit, p, s);
    if s.Offer? {
      SumSnoc(p.stages, Offered, f);
    } else if Changes(p, s).Change? {
      SumUpdate(p.stages, Changes(p, s).i, Changes(p, s).to, f);
    }
  }

  predicate ByWorker(s: Step) {
    s.Begin? || s.Return? || s.Record? || s.Release? || s.Finish?
  }

  lemma WorkerCounts(limit: nat, p: Pool, s: Step)
    requires ByWorker(s) && Enabled(limit, p, s)
    ensures Delta(limit, p, s, Slot) == (if s.Release? then -1 else 0)
    ensures Delta(limit, p, s, Member) == (if s.Finish? then -1 else 0)
    ensures var p' := Apply(limit, p, s); p'.phase == p.phase
    ensures var p' := Apply(limit, p, s);
            p'.sem - p.sem == (if s.Release? then -1 else 0) && p'.wg - p.wg == (if s.Finish? then -1 else 0)
  {
  }

  lemma DispatcherCounts(limit: nat, p: Pool, s: Step)
    requires !ByWorker(s) && PhaseOk(p) && Enabled(limit, p, s)
    ensures Delta(limit, p, s, Slot) == Delta(limit, p, s, Member) == (if s.Go? then 1 else 0)
  {
  }

  lemma DispatcherOwns(limit: nat, p: Pool, s: Step)
    requires !ByWorker(s) && Enabled(limit, p, s)
    ensures var p', go := Apply(limit, p, s), if s.Go? then 1 else 0;
            && p'.sem - OwnSlot(p'.phase) == p.sem - OwnSlot(p.phase) + go
            && p'.wg - OwnCount(p'.phase) == p.wg - OwnCount(p.phase) + go
            && (p.sem <= limit ==> p'.sem <= limit)
  {
  }

  lemma SlotStep(limit: nat, p: Pool, s: Step)
    requires PhaseOk(p) && CountsOk(limit, p) && Enabled(limit, p, s)
    ensures var p' := Apply(limit, p, s); p'.sem == Sum(p'.stages, Slot) + OwnSlot(p'.phase) <= limit
    ensures var p' := Apply(limit, p, s); p'.wg == Sum(p'.stages, Member) + OwnCount(p'.phase)
  {
    SumStep(limit, p, s, Slot);
    SumStep(limit, p, s, Member);
    if ByWorker(s) {
      WorkerCounts(limit, p, s);
    } else {
      DispatcherCounts(limit, p, s);
      DispatcherOwns(limit, p, s);
    }
  }

  /** Nobody counted means that no worker can take a step. */
  lemma NobodyCounted(p: Pool, i: nat)
    requires Sum(p.stages, Member) == 0 && i < |p.stages|
    ensures Member(p.stages[i]) == 0
  {
    SumZero(p.stages, Member, i);
  }

  lemma ClearStep(limit: nat, p: Pool, s: Step)
    requires PhaseOk(p) && CountsOk(limit, p) && Enabled(limit, p, s)
    ensures var p' := Apply(limit, p, s); p'.phase.Clear? || p'.phase.Inside? ==> p'.wg == 0
  {
    if s.Finish? {
      SumZero(p.stages, Member, s.worker);
    }
  }

  lemma CountsStep(limit: nat, p: Pool, s: Step)
    requires PhaseOk(p) && CountsOk(limit, p) && Enabled(limit, p, s)
    ensures CountsOk(limit, Apply(limit, p, s))
  {
    SlotStep(limit, p, s);
    ClearStep(limit, p, s);
  }

  /** How a step changes the errors that wait to be recorded. */
  lemma UnrecordedStep(limit: nat, p: Pool, s: Step)
    requires Enabled(limit, p, s)
    ensures var now, later := Unrecorded(p.stages), Unrecorded(Apply(limit, p, s).stages);
            match Changes(p, s)
            case Nothing => later == now
            case Change(i, to) => i < |p.stages| && later + ErrorOf(p.stages[i]) == now + ErrorOf(to)
  {
    StageEffect(limit, p, s);
    if s.Offer? {
      UnrecordedSnoc(p.stages, Offered);
    } else if Changes(p, s).Change? {
      UnrecordedUpdate(p.stages, Changes(p, s).i, Changes(p, s).to);
    }
  }

  lemma NoErrorMoves(later: multiset<Error>, now: multiset<Error>)
    requires later + multiset{} == now + multiset{}
    ensures later == now
  {
    assert later + multiset{} == later && now + multiset{} == now;
  }

  /** The inner call of worker `i` returns `err`. */
  lemma ErrorReturned(returned: seq<Error>, recorded: seq<Error>, now: multiset<Error>, later: multiset<Error>,
                      err: Error)
    requires multiset(returned) == multiset(recorded) + now && later + multiset{} == now + multiset{err}
    ensures multiset(returned + [err]) == multiset(recorded) + later
  {
    assert later == now + multiset{err};
  }

  lemma ErrorRecorded(returned: seq<Error>, recorded: seq<Error>, now: multiset<Error>, later: multiset<Error>,
                      err: Error)
    requires multiset(returned) == multiset(recorded) + now && later + multiset{err} == now + multiset{}
    ensures multiset(returned) == multiset(recorded + [err]) + later
  {
    assert now == later + multiset{err};
    assert multiset(recorded + [err]) == multiset(recorded) + multiset{err};
  }

  lemma ErrorsOfReturn(limit: nat, p: Pool, l: Log, i: nat, e: Error)
    requires ErrorsOk(p, l) && Enabled(limit, p, Return(i, Some(e)))
    ensures ErrorsOk(Apply(limit, p, Return(i, Some(e))), Note(limit, p, l, Return(i, Some(e))))
  {
    UnrecordedStep(limit, p, Return(i, Some(e)));
    var later := Unrecorded(Apply(limit, p, Return(i, Some(e))).stages);
    ErrorReturned(l.returned, l.recorded, Unrecorded(p.stages), later, e);
  }

  lemma ErrorsOfRecord(limit: nat, p: Pool, l: Log, i: nat)
    requires ErrorsOk(p, l) && Enabled(limit, p, Record(i))
    ensures ErrorsOk(Apply(limit, p, Record(i)), Note(limit, p, l, Record(i)))
  {
    UnrecordedStep(limit, p, Record(i));
    var later := Unrecorded(Apply(limit, p, Record(i)).stages);
    ErrorRecorded(l.returned, l.recorded, Unrecorded(p.stages), later, p.stages[i].err);
  }

  lemma WorkerMovesNone(limit: nat, p: Pool, s: Step)
    requires ByWorker(s) && !s.Record? && !(s.Return? && s.err.Some?) && Enabled(limit, p, s)
    ensures Unrecorded(Apply(limit, p, s).stages) == Unrecorded(p.stages)
  {
    UnrecordedStep(limit, p, s);
    NoErrorMoves(Unrecorded(Apply(limit, p, s).stages), Unrecorded(p.stages));
  }

  lemma ErrorsOfWorker(limit: nat, p: Pool, l: Log, s: Step)
    requires ErrorsOk(p, l) && ByWorker(s) && Enabled(limit, p, s)
    ensures ErrorsOk(Apply(limit, p, s), Note(limit, p, l, s))
  {
    match s {
      case Return(i, Some(e)) => ErrorsOfReturn(limit, p, l, i, e);
      case Record(i) => ErrorsOfRecord(limit, p, l, i);
      case _ => WorkerMovesNone(limit, p, s);
    }
  }

  /** The dispatcher moves only messages that have not been handed to a worker. */
  lemma DispatcherMovesNone(limit: nat, p: Pool, s: Step)
    requires PhaseOk(p) && !ByWorker(s) && Enabled(limit, p, s)
    ensures Unrecorded(Apply(limit, p, s).stages) == Unrecorded(p.stages)
  {
    UnrecordedStep(limit, p, s);
    if Changes(p, s).Change? {
      NoErrorMoves(Unrecorded(Apply(limit, p, s).stages), Unrecorded(p.stages));
    }
  }

  lemma ErrorsOfDispatcher(limit: nat, p: Pool, l: Log, s: Step)
    requires PhaseOk(p) && CountsOk(limit, p) && ErrorsOk(p, l) && !ByWorker(s) && Enabled(limit, p, s)
    ensures ErrorsOk(Apply(limit, p, s), Note(limit, p, l, s))
  {
    DispatcherMovesNone(limit, p, s);
    if s.DrainError? {
      AllRecorded(p.stages);
    }
  }

  lemma ErrorsStep(limit: nat, p: Pool, l: Log, s: Step)
    requires PhaseOk(p) && CountsOk(limit, p) && ErrorsOk(p, l) && Enabled(limit, p, s)
    ensures ErrorsOk(Apply(limit, p, s), Note(limit, p, l, s))
  {
    if ByWorker(s) {
      ErrorsOfWorker(limit, p, l, s);
    } else {
      ErrorsOfDispatcher(limit, p, l, s);
    }
  }

  lemma {:induction false} PoolInvariant(limit: nat, r: Run)
    ensures PhaseOk(Final(limit, r)) && CountsOk(limit, Final(limit, r)) && ErrorsOk(Final(limit, r), History(limit, r))
  {
    if r.Start? {
    } else {
      PoolInvariant(limit, r.before);
      var p := Final(limit, r.before);
      if Enabled(limit, p, r.step) {
        PhaseStep(limit, p, r.step);
        CountsStep(limit, p, r.step);
        ErrorsStep(limit, p, History(limit, r.before), r.step);
      }
    }
  }

  // ---------------------------------------------------------------- what the pool guarantees

  /** At most `limit` inner calls run at once. */
  lemma AtMostLimitRunning(limit: nat, r: Run)
    ensures Sum(Final(limit, r).stages, InInner) <= limit
  {
    PoolInvariant(limit, r);
    SumBounds(Final(limit, r).stages, InInner, Slot);
  }

  function Occurrences(calls: seq<nat>, i: nat): nat {
    if calls == [] then 0
    else Occurrences(calls[..|calls| - 1], i) + if calls[|calls| - 1] == i then 1 else 0
  }

  lemma OccurrencesSnoc(calls: seq<nat>, c: nat, i: nat)
    ensures Occurrences(calls + [c], i) == Occurrences(calls, i) + if c == i then 1 else 0
  {
    assert (calls + [c])[..|calls|] == calls;
  }

  /** The inner call for it has been made. */
  predicate Begun(p: Pool, i: nat) {
    i < |p.stages| && !(p.stages[i].Offered? || p.stages[i].Rejected? || p.stages[i].Launched?)
  }

  lemma BegunStep(limit: nat, p: Pool, s: Step, i: nat)
    requires PhaseOk(p) && Enabled(limit, p, s)
    ensures Begun(Apply(limit, p, s), i) <==> Begun(p, i) || s == Begin(i)
  {
    StageEffect(limit, p, s);
  }

  lemma CallsStep(limit: nat, p: Pool, l: Log, s: Step, i: nat)
    requires PhaseOk(p) && Enabled(limit, p, s)
    requires Occurrences(l.calls, i) == if Begun(p, i) then 1 else 0
    ensures Occurrences(Note(limit, p, l, s).calls, i) == if Begun(Apply(limit, p, s), i) then 1 else 0
  {
    BegunStep(limit, p, s, i);
    if s.Begin? {
      OccurrencesSnoc(l.calls, s.worker, i);
    }
  }

  /** The inner operator is called for a message exactly once if its worker got that far, and never otherwise:
      in particular never for a rejected message. */
  lemma {:induction false} CalledOnce(limit: nat, r: Run, i: nat)
    ensures Occurrences(History(limit, r).calls, i) == if Begun(Final(limit, r), i) then 1 else 0
  {
    if r.Start? {
    } else {
      CalledOnce(limit, r.before, i);
      PoolInvariant(limit, r.before);
      if Enabled(limit, Final(limit, r.before), r.step) {
        CallsStep(limit, Final(limit, r.before), History(limit, r.before), r.step, i);
      }
    }
  }

  /** When a checkpoint, a watermark, a drain or a close proceeds, every message ever offered was rejected or
      is completely processed, exactly once. */
  lemma NothingOutstanding(limit: nat, r: Run, i: nat)
    requires Final(limit, r).phase.Inside? && i < |Final(limit, r).stages|
    ensures Final(limit, r).stages[i].Rejected? || Final(limit, r).stages[i].Done?
    ensures Occurrences(History(limit, r).calls, i) == if Final(limit, r).stages[i].Done? then 1 else 0
  {
    PoolInvariant(limit, r);
    NobodyCounted(Final(limit, r), i);
    CalledOnce(limit, r, i);
  }

  /** The error held is the first one recorded since the last drain, and what inner calls have returned since
      then is recorded or on its way. */
  lemma FirstErrorIsHeld(limit: nat, r: Run)
    ensures Final(limit, r).lastErr == First(History(limit, r).recorded)
    ensures multiset(History(limit, r).returned) ==
            multiset(History(limit, r).recorded) + Unrecorded(Final(limit, r).stages)
  {
    PoolInvariant(limit, r);
  }

  // ---------------------------------------------------------------- errors are reported

  /** A message is refused exactly when an error has been recorded since the last drain, with the first one. */
  ghost predicate CheckOk(c: Check) {
    && (c.refused <==> c.recorded != [])
    && (c.refused ==> c.reply == First(c.recorded))
  }

  /** All errors returned since the drain before are recorded by now. The call proceeds exactly when there are
      none; otherwise it returns the first one recorded. */
  ghost predicate DrainOk(d: Drained) {
    && multiset(d.recorded) == multiset(d.returned)
    && (d.proceeds <==> d.returned == [])
    && (!d.proceeds ==> d.recorded != [] && d.reply == First(d.recorded))
  }

  lemma SameErrors(a: seq<Error>, b: seq<Error>)
    requires multiset(a) == multiset(b)
    ensures a == [] <==> b == []
  {
    assert |multiset(a)| == |a| && |multiset(b)| == |b|;
  }

  /** What the next drain will do, whatever has happened before it. */
  lemma DrainDecides(limit: nat, r: Run)
    requires Final(limit, r).phase.Clear? && !Final(limit, r).phase.call.ForClose?
    ensures var log, q := History(limit, r), Apply(limit, Final(limit, r), DrainError);
            && DrainOk(Drained(log.returned, log.recorded, q.phase.Inside?, q.reply))
            && (q.phase.Inside? || q.phase.Idle?) && q.lastErr.None?
  {
    PoolInvariant(limit, r);
    AllRecorded(Final(limit, r).stages);
    SameErrors(History(limit, r).returned, History(limit, r).recorded);
  }

  lemma CheckDecides(limit: nat, r: Run)
    requires Final(limit, r).phase.Checking?
    ensures var log, p := History(limit, r), Final(limit, r);
            && Enabled(limit, p, CheckError)
            && var q := Apply(limit, p, CheckError);
               && CheckOk(Check(log.recorded, q.phase.Idle?, q.reply)) && q.lastErr == p.lastErr
               && (At(q, |p.stages| - 1, Rejected) <==> log.recorded != []) && (q.phase.Idle? || q.phase.Acquiring?)
  {
    PoolInvariant(limit, r);
  }

  /** In every run, at every check and every drain so far, the first error recorded since the drain before was
      what the runtime was told. */
  lemma {:induction false} ErrorsAreReported(limit: nat, r: Run)
    ensures forall c :: c in History(limit, r).checks ==> CheckOk(c)
    ensures forall d :: d in History(limit, r).drains ==> DrainOk(d)
  {
    if r.Start? {
    } else {
      ErrorsAreReported(limit, r.before);
      if Enabled(limit, Final(limit, r.before), r.step) {
        if r.step.CheckError? {
          CheckDecides(limit, r.before);
        }
        if r.step.DrainError? && !Final(limit, r.before).phase.call.ForClose? {
          DrainDecides(limit, r.before);
        }
      }
    }
  }

  /** A watermark, checkpoint or drain that proceeds has just drained, and no inner call between that drain and
      the one before it failed. */
  lemma {:induction false} ProceedsWithoutErrors(limit: nat, r: Run)
    requires Final(limit, r).phase.Inside? && !Final(limit, r).phase.call.ForClose?
    ensures var drains := History(limit, r).drains;
            drains != [] && drains[|drains| - 1].proceeds && drains[|drains| - 1].returned == []
  {
    var p := Final(limit, r.before);
    if Enabled(limit, p, r.step) && r.step.DrainError? {
      DrainDecides(limit, r.before);
    } else {
      ProceedsWithoutErrors(limit, r.before);
      if Enabled(limit, p, r.step) {
        assert History(limit, r).drains == History(limit, r.before).drains;
      }
    }
  }

  // ---------------------------------------------------------------- what calls return

  /** ProcessMessage returns an error exactly for the messages it has not accepted. A call that the context
      interrupted says so; one that found an error returns the first recorded; one that went through returns
      what the inner operator did. */
  ghost predicate AnswerOk(p: Pool, a: Answer) {
    match a
    case ToMessage(i, reply) => i < |p.stages| && !p.stages[i].Offered? && (p.stages[i].Rejected? <==> reply.Some?)
    case ToCall(call, Interrupted, reply) => call.ForDrain? && reply == Some(CANCELLED)
    case ToCall(_, Held(recorded), reply) => recorded != [] && reply == First(recorded)
    case ToCall(_, Through(inner), reply) => reply == inner
  }

  /** And every message that has been decided on has its answer. */
  ghost predicate AnswersOk(p: Pool, l: Log) {
    && (forall a :: a in l.answers ==> AnswerOk(p, a))
    && (forall i: nat :: i < |p.stages| && !p.stages[i].Offered? ==> HasAnswer(l, i))
  }

  ghost predicate HasAnswer(l: Log, i: nat) {
    exists reply :: ToMessage(i, reply) in l.answers
  }

  lemma AnswerNow(limit: nat, p: Pool, l: Log, s: Step)
    requires PhaseOk(p) && ErrorsOk(p, l) && Enabled(limit, p, s)
    ensures var q := Apply(limit, p, s);
            && Note(limit, p, l, s).answers == l.answers + AnswerOf(p, l, s, q)
            && forall a :: a in AnswerOf(p, l, s, q) ==> AnswerOk(q, a)
  {
  }

  /** Decisions on messages are final. */
  lemma AnswerStays(limit: nat, p: Pool, s: Step, a: Answer)
    requires PhaseOk(p) && Enabled(limit, p, s) && AnswerOk(p, a)
    ensures AnswerOk(Apply(limit, p, s), a)
  {
    StageEffect(limit, p, s);
  }

  lemma DecidedNow(limit: nat, p: Pool, l: Log, s: Step, i: nat)
    requires PhaseOk(p) && Enabled(limit, p, s)
    requires i < |Apply(limit, p, s).stages| && !Apply(limit, p, s).stages[i].Offered?
    ensures (i < |p.stages| && !p.stages[i].Offered?) ||
            AnswerOf(p, l, s, Apply(limit, p, s)) == [ToMessage(i, Apply(limit, p, s).reply)]
  {
    StageEffect(limit, p, s);
  }

  lemma AnswersStep(limit: nat, p: Pool, l: Log, s: Step)
    requires PhaseOk(p) && ErrorsOk(p, l) && AnswersOk(p, l) && Enabled(limit, p, s)
    ensures AnswersOk(Apply(limit, p, s), Note(limit, p, l, s))
  {
    var q, m, now := Apply(limit, p, s), Note(limit, p, l, s), AnswerOf(p, l, s, Apply(limit, p, s));
    AnswerNow(limit, p, l, s);
    forall a | a in m.answers ensures AnswerOk(q, a) {
      if a in l.answers {
        AnswerStays(limit, p, s, a);
      }
    }
    forall i: nat | i < |q.stages| && !q.stages[i].Offered? ensures HasAnswer(m, i) {
      DecidedNow(limit, p, l, s, i);
      if i < |p.stages| && !p.stages[i].Offered? {
        assert HasAnswer(l, i);
        var reply :| ToMessage(i, reply) in l.answers;
        assert ToMessage(i, reply) in m.answers;
      } else {
        assert ToMessage(i, q.reply) in now;
      }
    }
  }

  /** In every run, what every call so far has returned. */
  lemma {:induction false} CallsReturn(limit: nat, r: Run)
    ensures AnswersOk(Final(limit, r), History(limit, r))
  {
    if r.Start? {
    } else {
      CallsReturn(limit, r.before);
      PoolInvariant(limit, r.before);
      if Enabled(limit, Final(limit, r.before), r.step) {
        AnswersStep(limit, Final(limit, r.before), History(limit, r.before), r.step);
      }
    }
  }

  predicate CanMove(limit: nat, p: Pool, i: nat) {
    || Enabled(limit, p, Begin(i)) || Enabled(limit, p, Return(i, None)) || Enabled(limit, p, Record(i))
    || Enabled(limit, p, Release(i)) || Enabled(limit, p, Finish(i))
  }

  lemma BusyWorker(limit: nat, p: Pool, i: nat)
    requires i < |p.stages| && Member(p.stages[i]) > 0
    ensures CanMove(limit, p, i)
  {
  }

  /** A dispatcher that waits for a slot, or for the wait group, waits for a worker that can take a step. */
  lemma WaitingForAWorker(limit: nat, r: Run) returns (i: nat)
    requires limit > 0
    requires var p := Final(limit, r); (p.phase.Acquiring? && p.sem >= limit) || (p.phase.Waiting? && p.wg != 0)
    ensures CanMove(limit, Final(limit, r), i)
  {
    PoolInvariant(limit, r);
    var p := Final(limit, r);
    SumBounds(p.stages, Slot, Member);
    i := SumPositive(p.stages, Member);
    BusyWorker(limit, p, i);
  }

  /** A call or a worker can get on: from every reachable state in which the dispatcher is inside a method, or a
      worker is not done, some step other than a new call or a cancellation is enabled. */
  lemma PoolNeverStuck(limit: nat, r: Run) returns (s: Step)
    requires limit > 0 && (!Final(limit, r).phase.Idle? || Sum(Final(limit, r).stages, Member) > 0)
    ensures Enabled(limit, Final(limit, r), s) && !s.Offer? && !s.Wait? && !s.Cancel?
  {
    PoolInvariant(limit, r);
    var p := Final(limit, r);
    SumBounds(p.stages, Slot, Member);
    if Sum(p.stages, Member) > 0 {
      var i := SumPositive(p.stages, Member);
      return WorkerStep(p.stages[i], i);
    }
    return DispatcherStep(p.phase);
  }

  /** What a worker does next. */
  function WorkerStep(s: Stage, i: nat): Step {
    match s
    case Launched => Begin(i)
    case Running => Return(i, None)
    case Failed(_) => Record(i)
    case Settled => Release(i)
    case _ => Finish(i)
  }

  /** What the dispatcher does next when nothing holds it up. */
  function DispatcherStep(ph: Phase): Step {
    match ph
    case Idle => Offer
    case Checking => CheckError
    case Acquiring => Acquire
    case Holding => Add
    case Counted => Go
    case Waiting(_) => Proceed
    case Clear(_) => DrainError
    case Inside(_) => Leave(None)
  }

  /** And an idle dispatcher takes any call. */
  lemma IdleTakesCalls(limit: nat, p: Pool, call: Call)
    requires p.phase.Idle?
    ensures Enabled(limit, p, Offer) && Enabled(limit, p, Wait(call))
  {
  }
}
