/** errorCounts (internal/engine/errors.go): counters created on first use by concurrent callers, as
    interleaved steps. Each step is one critical section or one atomic addition. */
module ErrorCounters {

  datatype Stage =
    | Called              // before the lookup under the read lock
    | Missed              // the lookup found no counter
    | Adding(counter: nat) // knows its counter
    | Finished

  datatype Caller = Caller(node: string, stage: Stage)

  /** `values` are the counters ever created; `counts` says which belongs to which node. */
  datatype Counters = Counters(counts: map<string, nat>, values: seq<nat>, callers: seq<Caller>)

  datatype Step = Call(node: string) | Lookup(i: nat) | Insert(i: nat) | AddOne(i: nat)

  predicate Enabled(c: Counters, s: Step) {
    match s
    case Call(_) => true
    case Lookup(i) => i < |c.callers| && c.callers[i].stage.Called?
    case Insert(i) => i < |c.callers| && c.callers[i].stage.Missed?
    case AddOne(i) => i < |c.callers| && c.callers[i].stage.Adding? && c.callers[i].stage.counter < |c.values|
  }

  function Move(c: Counters, i: nat, stage: Stage): seq<Caller>
    requires i < |c.callers|
  {
    c.callers[i := Caller(c.callers[i].node, stage)]
  }

  function Apply(c: Counters, s: Step): Counters
    requires Enabled(c, s)
  {
    match s
    case Call(node) => Counters(c.counts, c.values, c.callers + [Caller(node, Called)])
    case Lookup(i) =>
      var node := c.callers[i].node;
      Counters(c.counts, c.values, Move(c, i, if node in c.counts then Adding(c.counts[node]) else Missed))
    case Insert(i) =>
      // The second lookup, under the write lock, decides.
      var node := c.callers[i].node;
      if node in c.counts then Counters(c.counts, c.values, Move(c, i, Adding(c.counts[node])))
      else Counters(c.counts[node := |c.values|], c.values + [0], Move(c, i, Adding(|c.values|)))
    case AddOne(i) =>
      var k := c.callers[i].stage.counter;
      Counters(c.counts, c.values[k := c.values[k] + 1], Move(c, i, Finished))
  }

  /** Every interleaving; a step that is not enabled does nothing. */
  datatype Run = Start | Then(before: Run, step: Step)

  ghost function Final(r: Run): Counters {
    if r.Start? then Counters(map[], [], [])
    else if Enabled(Final(r.before), r.step) then Apply(Final(r.before), r.step)
    else Final(r.before)
  }

  // ---------------------------------------------------------------- one counter per node

  /** Counters and nodes correspond one to one, and a caller adds to its own node's counter. */
  ghost predicate Paired(c: Counters) {
    && (forall n :: n in c.counts ==> c.counts[n] < |c.values|)
    && (forall m, n :: m in c.counts && n in c.counts && c.counts[m] == c.counts[n] ==> m == n)
    && (forall k: nat :: k < |c.values| ==> Owned(c, k))
    && (forall i :: 0 <= i < |c.callers| && c.callers[i].stage.Adding? ==>
          c.callers[i].node in c.counts && c.callers[i].stage.counter == c.counts[c.callers[i].node])
  }

  ghost predicate Owned(c: Counters, k: nat) {
    exists n :: n in c.counts && c.counts[n] == k
  }

  /** Only the second lookup under the write lock creates a counter, and only for a node without one. */
  predicate Creates(c: Counters, s: Step) {
    s.Insert? && s.i < |c.callers| && c.callers[s.i].node !in c.counts
  }

  lemma PairedCreate(c: Counters, s: Step)
    requires Paired(c) && Enabled(c, s) && Creates(c, s)
    ensures Paired(Apply(c, s))
  {
    var c', node := Apply(c, s), c.callers[s.i].node;
    forall k: nat | k < |c'.values| ensures Owned(c', k) {
      if k < |c.values| {
        assert Owned(c, k);
        var n :| n in c.counts && c.counts[n] == k;
        assert n in c'.counts && c'.counts[n] == k;
      } else {
        assert node in c'.counts && c'.counts[node] == k;
      }
    }
  }

  lemma PairedKeep(c: Counters, s: Step)
    requires Paired(c) && Enabled(c, s) && !Creates(c, s)
    ensures Paired(Apply(c, s))
  {
    var c' := Apply(c, s);
    assert c'.counts == c.counts && |c'.values| == |c.values|;
    forall k: nat | k < |c'.values| ensures Owned(c', k) {
      assert Owned(c, k);
    }
  }

  lemma PairedStep(c: Counters, s: Step)
    requires Paired(c) && Enabled(c, s)
    ensures Paired(Apply(c, s))
  {
    if Creates(c, s) {
      PairedCreate(c, s);
    } else {
      PairedKeep(c, s);
    }
  }

  /** In every reachable state each node has at most one counter and each counter exactly one node. */
  lemma {:induction false} OneCounterPerNode(r: Run)
    ensures Paired(Final(r))
  {
    if r.Start? {
    } else {
      OneCounterPerNode(r.before);
      if Enabled(Final(r.before), r.step) {
        PairedStep(Final(r.before), r.step);
      }
    }
  }

  ghost predicate Extends(late: Run, early: Run) {
    late == early || (late.Then? && Extends(late.before, early))
  }

  /** Once a node has a counter, it is never replaced. */
  lemma {:induction false} NeverReplaced(early: Run, late: Run, node: string)
    requires Extends(late, early) && node in Final(early).counts
    ensures node in Final(late).counts && Final(late).counts[node] == Final(early).counts[node]
  {
    if late != early {
      NeverReplaced(early, late.before, node);
    }
  }

  // ---------------------------------------------------------------- what a counter shows

  /** How many calls for the node have finished. */
  function Completed(callers: seq<Caller>, node: string): nat {
    if callers == [] then 0
    else Completed(callers[..|callers| - 1], node) + Finishes(callers[|callers| - 1], node)
  }

  function Finishes(c: Caller, node: string): nat {
    if c.stage.Finished? && c.node == node then 1 else 0
  }

  /** How many calls for the node have been made. */
  function Made(callers: seq<Caller>, node: string): nat {
    if callers == [] then 0
    else Made(callers[..|callers| - 1], node) + if callers[|callers| - 1].node == node then 1 else 0
  }

  lemma CompletedSnoc(callers: seq<Caller>, c: Caller, node: string)
    ensures Completed(callers + [c], node) == Completed(callers, node) + Finishes(c, node)
  {
    assert (callers + [c])[..|callers|] == callers;
  }

  lemma {:induction false} CompletedUpdate(callers: seq<Caller>, i: nat, c: Caller, node: string)
    requires i < |callers|
    ensures Completed(callers[i := c], node) ==
            Completed(callers, node) - Finishes(callers[i], node) + Finishes(c, node)
  {
    var n := |callers| - 1;
    if i == n {
      assert callers[i := c][..n] == callers[..n];
    } else {
      assert callers[i := c][..n] == callers[..n][i := c];
      CompletedUpdate(callers[..n], i, c, node);
    }
  }

  /** What the node's counter shows; without a counter, nothing has been counted. */
  function Shown(c: Counters, node: string): nat {
    if node in c.counts && c.counts[node] < |c.values| then c.values[c.counts[node]] else 0
  }

  lemma CallersStep(c: Counters, s: Step, node: string)
    requires Enabled(c, s)
    ensures Completed(Apply(c, s).callers, node) == Completed(c.callers, node) + if s.AddOne?
          && c.callers[s.i].node == node then 1 else 0
  {
    if s.Call? {
      CompletedSnoc(c.callers, Caller(s.node, Called), node);
    } else {
      CompletedUpdate(c.callers, s.i, Apply(c, s).callers[s.i], node);
    }
  }

  lemma ShownStep(c: Counters, s: Step, node: string)
    requires Paired(c) && Enabled(c, s)
    ensures Shown(Apply(c, s), node) == Shown(c, node) + if s.AddOne? && c.callers[s.i].node == node then 1 else 0
  {
  }

  /** In every reachable state a node's counter shows how many calls for the node have finished. */
  lemma {:induction false} ShowsCompleted(r: Run, node: string)
    ensures Shown(Final(r), node) == Completed(Final(r).callers, node)
  {
    if r.Start? {
    } else {
      ShowsCompleted(r.before, node);
      OneCounterPerNode(r.before);
      if Enabled(Final(r.before), r.step) {
        ShownStep(Final(r.before), r.step, node);
        CallersStep(Final(r.before), r.step, node);
      }
    }
  }

  lemma {:induction false} MadeBounds(callers: seq<Caller>, node: string)
    ensures Completed(callers, node) <= Made(callers, node)
    ensures Completed(callers, node) == Made(callers, node) <==>
            forall i :: 0 <= i < |callers| && callers[i].node == node ==> callers[i].stage.Finished?
  {
    if callers == [] {
    } else {
      var front := callers[..|callers| - 1];
      MadeBounds(front, node);
      assert forall i :: 0 <= i < |front| ==> front[i] == callers[i];
    }
  }

  /** It shows all calls made for the node if and only if none of them is still in progress, and never more. */
  lemma ExactIffIdle(r: Run, node: string)
    ensures Shown(Final(r), node) <= Made(Final(r).callers, node)
    ensures Shown(Final(r), node) == Made(Final(r).callers, node) <==>
            forall i :: 0 <= i < |Final(r).callers| && Final(r).callers[i].node == node ==>
                  Final(r).callers[i].stage.Finished?
  {
    ShowsCompleted(r, node);
    MadeBounds(Final(r).callers, node);
  }

  /** Every call that has not finished can take its next step: nobody waits for anybody for good. */
  lemma NeverStuck(r: Run, i: nat) returns (s: Step)
    requires i < |Final(r).callers| && !Final(r).callers[i].stage.Finished?
    ensures Enabled(Final(r), s) && s == match Final(r).callers[i].stage
                                         case Called => Lookup(i)
                                         case Missed => Insert(i)
                                         case _ => AddOne(i)
  {
    OneCounterPerNode(r);
    return match Final(r).callers[i].stage case Called => Lookup(i) case Missed => Insert(i) case _ => AddOne(i);
  }

  /** A call made once the node has its counter never needs the write lock. */
  lemma {:induction false} CounterIsFound(early: Run, late: Run, i: nat)
    requires Extends(late, early) && |Final(early).callers| <= i < |Final(late).callers|
    requires Final(late).callers[i].node in Final(early).counts
    ensures !Final(late).callers[i].stage.Missed?
  {
    var before := late.before;
    if Enabled(Final(before), late.step) && i < |Final(before).callers| {
      CounterIsFound(early, before, i);
      NeverReplaced(early, before, Final(late).callers[i].node);
    } else if !Enabled(Final(before), late.step) {
      CounterIsFound(early, before, i);
    }
  }
}
