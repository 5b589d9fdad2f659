/** A node whose operator is a ConcurrentOperator (internal/engine/runtime.go, internal/engine/concurrent.go).
    The node's step machine only counts its workers; here the pool itself runs beside the loop, and every run
    of the two is shown to be a run of the counting machine. */
module PooledNodes {
  import opened Messages
  import opened NodeRuntime
  import Pool = WorkerPool

  datatype Pooled = Pooled(node: Local, pool: Pool.Pool)

  datatype PooledStep =
    | InPool(action: Pool.Step)                          // unseen by the node
    | Accept                                             // ProcessMessage adds to the wait group
    | WorkerSends(worker: nat, out: nat, msg: Message)   // an inner call emits
    | WorkerEnds(worker: nat)                            // a worker leaves the wait group
    | Loop(step: Step)                                   // the rest of the node

  /** Enabled but for what the counting machine says about workers. */
  ghost predicate Permitted(c: Config, l: Local, s: Step) {
    Enabled(c, l.(phase := l.phase.(inflight := 0)), s)
  }

  /** The operator is called for a snapshot or a watermark, and drained; each of these runs inside the pool's call. */
  predicate CallAllows(p: Pool.Pool, s: Step) {
    match s
    case TakeSnapshot(_) => p.phase == Pool.Inside(Pool.ForCheckpoint)
    case AdvanceWatermark(_) => p.phase == Pool.Inside(Pool.ForWatermark)
    case Drain => p.phase == Pool.Clear(Pool.ForDrain)
    case _ => true
  }

  predicate DispatchesData(l: Local, s: Step) {
    s.Process? && l.agenda.work != [] && l.agenda.work[0].msg.Data?
  }

  ghost predicate Allowed(c: Config, limit: nat, st: Pooled, s: PooledStep) {
    match s
    case InPool(a) => Pool.Enabled(limit, st.pool, a) && !a.Add? && !a.Finish?
    case Accept =>
      && Pool.Enabled(limit, st.pool, Pool.Add)
      && Permitted(c, st.node, Process([])) && DispatchesData(st.node, Process([]))
    case WorkerSends(i, out, msg) => Pool.At(st.pool, i, Pool.Running) && out < |st.node.outs| && msg.Data?
    case WorkerEnds(i) => Pool.Enabled(limit, st.pool, Pool.Finish(i))
    case Loop(a) =>
      && Permitted(c, st.node, a) && !a.WorkerEmit? && !a.WorkerDone? && !DispatchesData(st.node, a)
      && CallAllows(st.pool, a)
  }

  /** The step of the counting machine. */
  function NodeStep(s: PooledStep): Option<Step> {
    match s
    case InPool(_) => None
    case Accept => Some(Process([]))
    case WorkerSends(_, out, msg) => Some(WorkerEmit(out, msg))
    case WorkerEnds(_) => Some(WorkerDone)
    case Loop(a) => Some(a)
  }

  function PoolStep(s: PooledStep): Option<Pool.Step> {
    match s
    case InPool(a) => Some(a)
    case Accept => Some(Pool.Add)
    case WorkerEnds(i) => Some(Pool.Finish(i))
    case _ => None
  }

  ghost function NodeNext(c: Config, l: Local, s: Option<Step>): Local {
    if s.Some? && Enabled(c, l, s.value) then Apply(c, l, s.value) else l
  }

  ghost function PoolNext(limit: nat, p: Pool.Pool, s: Option<Pool.Step>): Pool.Pool {
    if s.Some? && Pool.Enabled(limit, p, s.value) then Pool.Apply(limit, p, s.value) else p
  }

  ghost function Next(c: Config, limit: nat, st: Pooled, s: PooledStep): Pooled {
    Pooled(NodeNext(c, st.node, NodeStep(s)), PoolNext(limit, st.pool, PoolStep(s)))
  }

  // ---------------------------------------------------------------- runs of both machines

  datatype PooledRun = Begin | Then(before: PooledRun, step: PooledStep)

  ghost function Final(c: Config, limit: nat, r: PooledRun): Pooled {
    match r
    case Begin => Pooled(Initial(c), Pool.Final(limit, Pool.Start))
    case Then(q, s) =>
      var st := Final(c, limit, q);
      if Allowed(c, limit, st, s) then Next(c, limit, st, s) else st
  }

  datatype NodeRun = Initially | Later(before: NodeRun, step: Step)

  ghost function NodeFinal(c: Config, r: NodeRun): Local {
    if r.Initially? then Initial(c) else NodeNext(c, NodeFinal(c, r.before), Some(r.step))
  }

  /** Each step of the run was enabled when it was taken. */
  ghost predicate Legal(c: Config, r: NodeRun) {
    r.Later? ==> Legal(c, r.before) && Enabled(c, NodeFinal(c, r.before), r.step)
  }

  /** The node's part of a run. */
  ghost function NodePart(c: Config, limit: nat, r: PooledRun): NodeRun {
    match r
    case Begin => Initially
    case Then(q, s) =>
      if Allowed(c, limit, Final(c, limit, q), s) && NodeStep(s).Some? then
        Later(NodePart(c, limit, q), NodeStep(s).value)
      else NodePart(c, limit, q)
  }

  // ---------------------------------------------------------------- refinement

  /** The node's count of workers is the pool's wait group. */
  ghost predicate Agree(limit: nat, st: Pooled) {
    Pool.PhaseOk(st.pool) && Pool.CountsOk(limit, st.pool) && st.node.phase.inflight == st.pool.wg
  }

  lemma WorkersLeft(limit: nat, p: Pool.Pool, i: nat)
    requires Pool.CountsOk(limit, p) && i < |p.stages| && Pool.Member(p.stages[i]) == 1
    ensures p.wg > 0
  {
    Pool.SumZero(p.stages, Pool.Member, i);
  }

  /** The guards of the counting machine hold. */
  lemma GuardsHold(c: Config, limit: nat, st: Pooled, s: PooledStep)
    requires Agree(limit, st) && Allowed(c, limit, st, s) && NodeStep(s).Some?
    ensures Enabled(c, st.node, NodeStep(s).value)
  {
    match s {
      case Accept =>
      case WorkerSends(i, _, _) => WorkersLeft(limit, st.pool, i);
      case WorkerEnds(i) => WorkersLeft(limit, st.pool, i);
      case Loop(a) =>
        if a.TakeSnapshot? || a.AdvanceWatermark? || a.Drain? {
          assert st.pool.wg == 0;
        }
    }
  }

  /** What a node's step does to its count. */
  lemma CountStep(c: Config, l: Local, s: Step)
    requires c.pooled && Enabled(c, l, s)
    ensures Apply(c, l, s).phase.inflight ==
            if DispatchesData(l, s) then l.phase.inflight + 1
            else if s.WorkerDone? then l.phase.inflight - 1 else l.phase.inflight
  {
  }

  lemma PoolCountStep(limit: nat, p: Pool.Pool, s: Pool.Step)
    requires Pool.Enabled(limit, p, s)
    ensures Pool.Apply(limit, p, s).wg == if s.Add? then p.wg + 1 else if s.Finish? then p.wg - 1 else p.wg
  {
  }

  lemma PoolOk(limit: nat, p: Pool.Pool, s: Pool.Step)
    requires Pool.PhaseOk(p) && Pool.CountsOk(limit, p) && Pool.Enabled(limit, p, s)
    ensures Pool.PhaseOk(Pool.Apply(limit, p, s)) && Pool.CountsOk(limit, Pool.Apply(limit, p, s))
  {
    Pool.PhaseStep(limit, p, s);
    Pool.CountsStep(limit, p, s);
  }

  lemma AgreeNext(c: Config, limit: nat, st: Pooled, s: PooledStep)
    requires c.pooled && Agree(limit, st) && Allowed(c, limit, st, s)
    ensures Agree(limit, Next(c, limit, st, s))
  {
    if NodeStep(s).Some? {
      GuardsHold(c, limit, st, s);
      CountStep(c, st.node, NodeStep(s).value);
    }
    if PoolStep(s).Some? {
      PoolOk(limit, st.pool, PoolStep(s).value);
      PoolCountStep(limit, st.pool, PoolStep(s).value);
    }
  }

  lemma {:induction false} CountIsWaitGroup(c: Config, limit: nat, r: PooledRun)
    requires c.pooled
    ensures Agree(limit, Final(c, limit, r))
  {
    match r {
      case Begin => Pool.PoolInvariant(limit, Pool.Start);
      case Then(q, s) =>
        CountIsWaitGroup(c, limit, q);
        if Allowed(c, limit, Final(c, limit, q), s) {
          AgreeNext(c, limit, Final(c, limit, q), s);
        }
    }
  }

  /** Every run of the node with its pool is a run of the counting machine, all of whose guards hold. */
  lemma {:induction false} PoolRefinesCount(c: Config, limit: nat, r: PooledRun)
    requires c.pooled
    ensures Legal(c, NodePart(c, limit, r)) && NodeFinal(c, NodePart(c, limit, r)) == Final(c, limit, r).node
  {
    match r {
      case Begin =>
      case Then(q, s) =>
        PoolRefinesCount(c, limit, q);
        CountIsWaitGroup(c, limit, q);
        if Allowed(c, limit, Final(c, limit, q), s) && NodeStep(s).Some? {
          GuardsHold(c, limit, Final(c, limit, q), s);
        }
    }
  }
}
