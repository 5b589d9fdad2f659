/** Saving completed checkpoints and keeping the newest (internal/engine/checkpoint_manager.go, and the
    completion callback of internal/engine/builder.go). The backend never fails here. */
module Retention {
  import opened Collections
  import opened Messages
  import opened Codecs
  import opened Coordination

  /** What a backend holds: for each epoch the state of some nodes. */
  type Stored = map<nat, States>

  function StatesOf(data: Stored, epoch: nat): States {
    if epoch in data then data[epoch] else map[]
  }

  // ---------------------------------------------------------------- the newest epochs

  /** `top` are the `k` largest numbers of `all`, or all of them if there are fewer. */
  ghost predicate IsTop(top: set<nat>, all: set<nat>, k: nat) {
    && top <= all && |top| == (if |all| < k then |all| else k)
    && forall r, s :: r in top && s in all && s !in top ==> s < r
  }

  lemma Grow(s: set<nat>, e: nat)
    ensures |s + {e}| == if e in s then |s| else |s| + 1
  {
    if e in s {
      assert s + {e} == s;
    }
  }

  /** Keeping the newest of the kept and one more is keeping the newest of all. */
  lemma TopOfTop(top: set<nat>, all: set<nat>, e: nat, top': set<nat>, k: nat)
    requires IsTop(top, all, k) && IsTop(top', top + {e}, k)
    ensures IsTop(top', all + {e}, k)
  {
    Grow(top, e);
    Grow(all, e);
    if |all| <= k {
      SubsetSize(top, all);
    } else if e in top {
      assert top + {e} == top && all + {e} == all;
      SubsetSize(top', top);
    } else {
      forall r, s | r in top' && s in all + {e} && s !in top' ensures s < r {
        if s !in top + {e} && r == e {
          var x := Missing(top', top + {e});
        }
      }
    }
  }

  lemma Missing(part: set<nat>, all: set<nat>) returns (x: nat)
    requires part <= all && |part| < |all|
    ensures x in all && x !in part
  {
    SubsetSize(part, all);
    x :| x in all && x !in part;
  }

  lemma TopUnique(a: set<nat>, b: set<nat>, all: set<nat>, k: nat)
    requires IsTop(a, all, k) && IsTop(b, all, k)
    ensures a == b
  {
    if x :| x in a && x !in b {
      forall y | y in b ensures y in a {
        assert y !in a ==> y < x;
      }
      SubsetSize(b, a);
    } else {
      SubsetSize(a, b);
    }
  }

  lemma {:induction false} TopExists(all: set<nat>, k: nat) returns (top: set<nat>)
    ensures IsTop(top, all, k)
    decreases |all|
  {
    if |all| <= k {
      return all;
    }
    var least := Smallest(all);
    top := TopExists(all - {least}, k);
  }

  lemma {:induction false} Smallest(s: set<nat>) returns (least: nat)
    requires s != {}
    ensures least in s && forall e :: e in s ==> least <= e
    decreases |s|
  {
    var x :| x in s;
    if s == {x} {
      return x;
    }
    assert s == (s - {x}) + {x};
    var y := Smallest(s - {x});
    least := if x < y then x else y;
  }

  /** The newest `keepCount` of the epochs, or all of them if `keepCount` is not positive. */
  ghost predicate Newest(kept: set<nat>, all: set<nat>, keepCount: int) {
    if keepCount > 0 then IsTop(kept, all, keepCount) else kept == all
  }

  lemma NewestOfNewest(kept: set<nat>, all: set<nat>, e: nat, kept': set<nat>, keepCount: int)
    requires Newest(kept, all, keepCount) && Newest(kept', kept + {e}, keepCount)
    ensures Newest(kept', all + {e}, keepCount)
  {
    if keepCount > 0 {
      TopOfTop(kept, all, e, kept', keepCount);
    }
  }

  lemma NewestHasLargest(kept: set<nat>, all: set<nat>, keepCount: int, latest: nat)
    requires Newest(kept, all, keepCount) && latest in kept && forall e :: e in kept ==> e <= latest
    ensures latest in all && forall e :: e in all ==> e <= latest
  {
  }

  // ---------------------------------------------------------------- sorted lists of epochs

  ghost predicate Ascending(s: seq<nat>) {
    forall i, j :: 0 <= i < j < |s| ==> s[i] < s[j]
  }

  function Elements(s: seq<nat>): set<nat> {
    set x | x in s
  }

  lemma ElementsSnoc(s: seq<nat>, x: nat)
    ensures Elements(s + [x]) == Elements(s) + {x}
  {
  }

  lemma {:induction false} SizeOfAscending(s: seq<nat>)
    requires Ascending(s)
    ensures |Elements(s)| == |s|
  {
    if s == [] {
    } else {
      var front, last := s[..|s| - 1], s[|s| - 1];
      SizeOfAscending(front);
      assert s == front + [last];
      ElementsSnoc(front, last);
      assert last !in Elements(front);
    }
  }

  /** The last `k` of an ascending list are its `k` largest. */
  lemma LastAreTop(gone: seq<nat>, kept: seq<nat>)
    requires Ascending(gone + kept)
    ensures IsTop(Elements(gone + kept) - Elements(gone), Elements(gone + kept), |kept|)
  {
    var s := gone + kept;
    assert forall j :: 0 <= j < |kept| ==> kept[j] == s[|gone| + j];
    assert Ascending(kept);
    SizeOfAscending(s);
    SizeOfAscending(kept);
    forall r, x | r in kept && x in gone ensures x < r {
      var i :| 0 <= i < |kept| && kept[i] == r;
      var j :| 0 <= j < |gone| && gone[j] == x;
      assert s[j] < s[|gone| + i];
    }
    assert Elements(s) - Elements(gone) == Elements(kept);
  }

  // ---------------------------------------------------------------- the backend

  class Backend {
    var data: Stored

    constructor ()
      ensures data == map[]
    {
      data := map[];
    }

    method Save(epoch: nat, node: string, state: Bytes)
      modifies this
      ensures data == old(data)[epoch := StatesOf(old(data), epoch)[node := state]]
    {
      data := data[epoch := StatesOf(data, epoch)[node := state]];
    }

    method Load(epoch: nat, node: string) returns (state: Option<Bytes>)
      ensures state == if node in StatesOf(data, epoch) then Some(StatesOf(data, epoch)[node]) else None
    {
      if epoch in data && node in data[epoch] {
        return Some(data[epoch][node]);
      }
      return None;
    }

    method Delete(epoch: nat)
      modifies this
      ensures data == old(data) - {epoch}
    {
      data := data - {epoch};
    }

    method ListEpochs() returns (epochs: seq<nat>)
      ensures Ascending(epochs) && Elements(epochs) == data.Keys
    {
      epochs := [];
      var todo := data.Keys;
      while todo != {}
        invariant todo <= data.Keys && Ascending(epochs)
        invariant Elements(epochs) == data.Keys - todo
        invariant forall i, e :: 0 <= i < |epochs| && e in todo ==> epochs[i] < e
        decreases todo
      {
        var least := Least(todo);
        ElementsSnoc(epochs, least);
        epochs := epochs + [least];
        todo := todo - {least};
      }
    }
  }

  method Least(s: set<nat>) returns (least: nat)
    requires s != {}
    ensures least in s && forall e :: e in s ==> least <= e
  {
    least :| least in s;
    var todo := s;
    while todo != {}
      invariant todo <= s && least in s
      invariant forall e :: e in s && e !in todo ==> least <= e
      decreases todo
    {
      var e :| e in todo;
      if e < least {
        least := e;
      }
      todo := todo - {e};
    }
  }

  // ---------------------------------------------------------------- the manager

  ghost predicate Pruned(data: Stored, before: Stored, keepCount: int) {
    && (forall e :: e in data ==> e in before && data[e] == before[e])
    && Newest(data.Keys, before.Keys, keepCount)
  }

  lemma PrunedUnique(a: Stored, b: Stored, before: Stored, keepCount: int)
    requires Pruned(a, before, keepCount) && Pruned(b, before, keepCount)
    ensures a == b
  {
    if keepCount > 0 {
      TopUnique(a.Keys, b.Keys, before.Keys, keepCount);
    }
  }

  lemma PrunedExists(before: Stored, keepCount: int) returns (data: Stored)
    ensures Pruned(data, before, keepCount)
  {
    if keepCount <= 0 {
      return before;
    }
    var top := TopExists(before.Keys, keepCount);
    data := map e | e in top :: before[e];
    assert data.Keys == top;
  }

  lemma PrunedBy(data: Stored, gone: set<nat>, k: nat)
    requires k > 0 && IsTop(data.Keys - gone, data.Keys, k)
    ensures Pruned(data - gone, data, k)
  {
    var rest := data - gone;
    assert rest.Keys == data.Keys - gone;
  }

  lemma NothingPruned(data: Stored, k: nat)
    requires k > 0 && |data.Keys| <= k
    ensures Pruned(data, data, k)
  {
  }

  lemma DeletedNext(data: Stored, gone: seq<nat>, i: nat)
    requires i < |gone|
    ensures data - Elements(gone[..i]) - {gone[i]} == data - Elements(gone[..i + 1])
  {
    assert gone[..i + 1] == gone[..i] + [gone[i]];
    ElementsSnoc(gone[..i], gone[i]);
  }

  lemma DeletedOldest(data: Stored, gone: seq<nat>, kept: seq<nat>)
    requires Ascending(gone + kept) && Elements(gone + kept) == data.Keys && kept != []
    ensures Pruned(data - Elements(gone), data, |kept|)
  {
    LastAreTop(gone, kept);
    PrunedBy(data, Elements(gone), |kept|);
  }

  class CheckpointManager {
    const backend: Backend
    const keepCount: int
    var nodeStates: map<nat, States>

    constructor (backend: Backend, keepCount: int)
      ensures this.backend == backend && this.keepCount == keepCount && nodeStates == map[]
    {
      this.backend, this.keepCount := backend, keepCount;
      nodeStates := map[];
    }

    method CollectState(epoch: nat, node: string, state: Bytes)
      modifies this
      ensures nodeStates == old(nodeStates)[epoch := StatesOf(old(nodeStates), epoch)[node := state]]
    {
      if epoch !in nodeStates {
        nodeStates := nodeStates[epoch := map[]];
      }
      nodeStates := nodeStates[epoch := nodeStates[epoch][node := state]];
    }

    /** Saves what was collected for the epoch, in the order in which the map happens to be enumerated. */
    method SaveCheckpoint(epoch: nat)
      modifies this, backend
      ensures epoch !in old(nodeStates) ==> nodeStates == old(nodeStates) && backend.data == old(backend.data)
      ensures epoch in old(nodeStates) ==>
                && nodeStates == old(nodeStates) - {epoch}
                && Pruned(backend.data, Written(old(backend.data), epoch, old(nodeStates)[epoch]), keepCount)
    {
      if epoch !in nodeStates {
        return;
      }
      var states := nodeStates[epoch];
      var todo := states.Keys;
      while todo != {}
        invariant todo <= states.Keys && nodeStates == old(nodeStates)
        invariant backend.data == Written(old(backend.data), epoch, states - todo)
        decreases todo
      {
        var node :| node in todo;
        WrittenNext(old(backend.data), epoch, states, todo, node);
        backend.Save(epoch, node, states[node]);
        todo := todo - {node};
      }
      assert states - todo == states;
      if keepCount > 0 {
        CleanupOldCheckpoints();
      }
      nodeStates := nodeStates - {epoch};
    }

    /** ListEpochs is ascending, so sorting its result again changes nothing. */
    method CleanupOldCheckpoints()
      requires keepCount > 0
      modifies backend
      ensures Pruned(backend.data, old(backend.data), keepCount)
    {
      var epochs := backend.ListEpochs();
      SizeOfAscending(epochs);
      if |epochs| <= keepCount {
        NothingPruned(backend.data, keepCount);
        return;
      }
      ghost var kept := epochs[|epochs| - keepCount..];
      var toDelete := epochs[..|epochs| - keepCount];
      assert epochs == toDelete + kept;
      DeleteAll(toDelete);
      DeletedOldest(old(backend.data), toDelete, kept);
    }

    method DeleteAll(epochs: seq<nat>)
      modifies backend
      ensures backend.data == old(backend.data) - Elements(epochs)
    {
      for i := 0 to |epochs|
        invariant backend.data == old(backend.data) - Elements(epochs[..i])
      {
        DeletedNext(old(backend.data), epochs, i);
        backend.Delete(epochs[i]);
      }
      assert epochs[..|epochs|] == epochs;
    }

    method LatestEpoch() returns (latest: Option<nat>)
      ensures latest.None? <==> backend.data == map[]
      ensures latest.Some? ==> IsLatest(backend.data, latest.value)
    {
      var epochs := backend.ListEpochs();
      if |epochs| == 0 {
        assert backend.data.Keys == {};
        return None;
      }
      assert epochs[|epochs| - 1] in Elements(epochs);
      return Some(epochs[|epochs| - 1]);
    }

    /** What is stored for those of the nodes that have anything stored. */
    method RestoreNodes(epoch: nat, nodes: seq<string>) returns (result: States)
      ensures result == map n | n in nodes && n in StatesOf(backend.data, epoch) :: StatesOf(backend.data, epoch)[n]
    {
      result := map[];
      for i := 0 to |nodes|
        invariant result == map n | n in nodes[..i] && n in StatesOf(backend.data, epoch) ::
                              StatesOf(backend.data, epoch)[n]
      {
        assert nodes[..i + 1] == nodes[..i] + [nodes[i]];
        var state := backend.Load(epoch, nodes[i]);
        if state.Some? {
          result := result[nodes[i] := state.value];
        }
      }
      assert nodes[..|nodes|] == nodes;
    }

    /** The callback the builder installs. */
    method OnCheckpointComplete(epoch: nat, states: States)
      modifies this, backend
      ensures states != map[] ==>
                Pruned(backend.data, Written(old(backend.data), epoch, StatesOf(old(nodeStates), epoch) + states),
                      keepCount)
      ensures states == map[] && epoch !in old(nodeStates) ==> backend.data == old(backend.data)
      ensures nodeStates == old(nodeStates) - {epoch}
    {
      var todo := states.Keys;
      while todo != {}
        invariant todo <= states.Keys && backend.data == old(backend.data)
        invariant nodeStates == Written(old(nodeStates), epoch, states - todo)
        decreases todo
      {
        var node :| node in todo;
        WrittenNext(old(nodeStates), epoch, states, todo, node);
        CollectState(epoch, node, states[node]);
        todo := todo - {node};
      }
      assert states - todo == states;
      SaveCheckpoint(epoch);
      WrittenAt(old(nodeStates), epoch, states);
    }
  }

  /** After saving the states of some nodes. Nothing is created for an epoch without any. */
  function Written(data: Stored, epoch: nat, states: States): Stored {
    if states == map[] then data else data[epoch := StatesOf(data, epoch) + states]
  }

  lemma WrittenAt(data: Stored, epoch: nat, states: States)
    ensures Written(data, epoch, states) - {epoch} == data - {epoch}
    ensures states != map[] ==>
              && epoch in Written(data, epoch, states)
              && Written(data, epoch, states)[epoch] == StatesOf(data, epoch) + states
    ensures states == map[] ==> Written(data, epoch, states) == data
  {
  }

  lemma WrittenNext(data: Stored, epoch: nat, states: States, todo: set<string>, node: string)
    requires todo <= states.Keys && node in todo
    ensures var w := Written(data, epoch, states - todo);
            Written(data, epoch, states - (todo - {node})) == w[epoch := StatesOf(w, epoch)[node := states[node]]]
  {
    var now, next := states - todo, states - (todo - {node});
    assert next == now[node := states[node]];
    assert StatesOf(data, epoch) + next == (StatesOf(data, epoch) + now)[node := states[node]];
    if now == map[] {
      assert StatesOf(data, epoch) + now == StatesOf(data, epoch);
    }
  }

  // ---------------------------------------------------------------- sequences of saves

  /** The backend after these saves, from an empty one. */
  ghost predicate Persisted(calls: seq<Call>, keepCount: int, data: Stored) {
    if calls == [] then data == map[]
    else
      var last := calls[|calls| - 1];
      if last.Quiescence? then Persisted(calls[..|calls| - 1], keepCount, data)
      else exists before :: Persisted(calls[..|calls| - 1], keepCount, before)
            && SavedFrom(before, last, keepCount, data)
  }

  /** What a save leaves in the backend. */
  ghost predicate SavedFrom(before: Stored, save: Call, keepCount: int, data: Stored)
    requires save.Completed?
  {
    Pruned(data, Written(before, save.epoch, save.states), keepCount)
  }

  /** The saves determine what the backend holds. */
  lemma {:induction false} PersistedExists(calls: seq<Call>, keepCount: int) returns (data: Stored)
    ensures Persisted(calls, keepCount, data)
    ensures forall other :: Persisted(calls, keepCount, other) ==> other == data
    decreases |calls|
  {
    if calls == [] {
      return map[];
    }
    var front, last := calls[..|calls| - 1], calls[|calls| - 1];
    var before := PersistedExists(front, keepCount);
    if last.Quiescence? {
      return before;
    }
    var written := Written(before, last.epoch, last.states);
    data := PrunedExists(written, keepCount);
    assert SavedFrom(before, last, keepCount, data);
    forall other | Persisted(calls, keepCount, other) ensures other == data {
      var prior :| Persisted(front, keepCount, prior) && SavedFrom(prior, last, keepCount, other);
      assert prior == before;
      PrunedUnique(other, data, written, keepCount);
    }
  }

  /** The epochs ever saved. */
  function Epochs(calls: seq<Call>): set<nat> {
    set c | c in calls && c.Completed? :: c.epoch
  }

  function LastSaved(calls: seq<Call>, epoch: nat): States {
    if calls == [] then map[]
    else if calls[|calls| - 1].Completed? && calls[|calls| - 1].epoch == epoch then calls[|calls| - 1].states
    else LastSaved(calls[..|calls| - 1], epoch)
  }

  /** Every save has the states of all nodes. */
  ghost predicate Full(nodes: set<string>, calls: seq<Call>) {
    forall c :: c in calls && c.Completed? ==> c.states.Keys == nodes
  }

  /** The retained epochs are the `keepCount` largest ever saved (all if `keepCount` is not positive), each
      with the states last saved for it. */
  lemma {:induction false} RetainsNewest(nodes: set<string>, calls: seq<Call>, keepCount: int, data: Stored)
    requires Persisted(calls, keepCount, data) && Full(nodes, calls) && nodes != {}
    ensures Newest(data.Keys, Epochs(calls), keepCount) && HoldsLast(data, calls)
    decreases |calls|
  {
    if calls == [] {
    } else {
      var front, last := calls[..|calls| - 1], calls[|calls| - 1];
      SplitLast(calls);
      FullFront(nodes, front, last);
      if last.Quiescence? {
        RetainsNewest(nodes, front, keepCount, data);
        SkipRetains(front, last, keepCount, data);
      } else {
        var before :| Persisted(front, keepCount, before) && SavedFrom(before, last, keepCount, data);
        RetainsNewest(nodes, front, keepCount, before);
        SaveRetains(nodes, front, last, keepCount, before, data);
      }
    }
  }

  lemma FullFront(nodes: set<string>, front: seq<Call>, last: Call)
    requires Full(nodes, front + [last])
    ensures Full(nodes, front) && (last.Completed? ==> last.states.Keys == nodes)
  {
    assert last in front + [last];
    assert forall c :: c in front ==> c in front + [last];
  }

  lemma SkipRetains(front: seq<Call>, last: Call, keepCount: int, data: Stored)
    requires last.Quiescence? && Newest(data.Keys, Epochs(front), keepCount) && HoldsLast(data, front)
    ensures Newest(data.Keys, Epochs(front + [last]), keepCount) && HoldsLast(data, front + [last])
  {
    EpochsSnoc(front, last);
  }

  lemma SaveRetains(nodes: set<string>, front: seq<Call>, last: Call, keepCount: int, before: Stored, data: Stored)
    requires last.Completed? && last.states.Keys == nodes != {} && Full(nodes, front)
    requires Newest(before.Keys, Epochs(front), keepCount) && HoldsLast(before, front)
    requires SavedFrom(before, last, keepCount, data)
    ensures Newest(data.Keys, Epochs(front + [last]), keepCount) && HoldsLast(data, front + [last])
  {
    EpochsSnoc(front, last);
    SaveWrites(nodes, front, last, before);
    NewestOfNewest(before.Keys, Epochs(front), last.epoch, data.Keys, keepCount);
  }

  ghost predicate HoldsLast(data: Stored, calls: seq<Call>) {
    forall e :: e in data ==> data[e] == LastSaved(calls, e)
  }

  lemma EpochsSnoc(calls: seq<Call>, c: Call)
    ensures Epochs(calls + [c]) == if c.Completed? then Epochs(calls) + {c.epoch} else Epochs(calls)
    ensures forall e :: LastSaved(calls + [c], e) == if c.Completed? && c.epoch == e then c.states
          else LastSaved(calls, e)
  {
    assert (calls + [c])[..|calls|] == calls;
    assert forall d :: d in calls + [c] <==> d in calls || d == c;
  }

  lemma SaveWrites(nodes: set<string>, front: seq<Call>, last: Call, before: Stored)
    requires last.Completed? && last.states.Keys == nodes != {} && Full(nodes, front) && HoldsLast(before, front)
    ensures var w := Written(before, last.epoch, last.states);
            w.Keys == before.Keys + {last.epoch} && HoldsLast(w, front + [last])
  {
    var n :| n in nodes;
    assert n in last.states;
    StoredHasNodes(nodes, front, before, last.epoch);
    assert StatesOf(before, last.epoch) + last.states == last.states;
    EpochsSnoc(front, last);
  }

  lemma StoredHasNodes(nodes: set<string>, calls: seq<Call>, data: Stored, e: nat)
    requires Full(nodes, calls) && HoldsLast(data, calls)
    ensures StatesOf(data, e).Keys <= nodes
  {
    LastSavedKeys(nodes, calls, e);
  }

  lemma {:induction false} LastSavedKeys(nodes: set<string>, calls: seq<Call>, e: nat)
    requires Full(nodes, calls)
    ensures LastSaved(calls, e).Keys <= nodes
  {
    if calls == [] {
    } else {
      assert calls[|calls| - 1] in calls;
      LastSavedKeys(nodes, calls[..|calls| - 1], e);
    }
  }

  /** What LatestEpoch returns. */
  ghost predicate IsLatest(data: Stored, latest: nat) {
    latest in data && forall e :: e in data ==> e <= latest
  }

  /** The latest retained epoch is the latest ever saved. */
  lemma LatestIsNewest(nodes: set<string>, calls: seq<Call>, keepCount: int, data: Stored, latest: nat)
    requires Persisted(calls, keepCount, data) && Full(nodes, calls) && nodes != {} && IsLatest(data, latest)
    ensures latest in Epochs(calls) && forall e :: e in Epochs(calls) ==> e <= latest
  {
    RetainsNewest(nodes, calls, keepCount, data);
    NewestHasLargest(data.Keys, Epochs(calls), keepCount, latest);
  }

  /** Once an epoch is stored there always is a latest one, and it never decreases. */
  lemma LatestNeverDecreases(nodes: set<string>, calls: seq<Call>, more: seq<Call>, keepCount: int, data: Stored,
        data': Stored)
    requires Persisted(calls, keepCount, data) && Persisted(calls + more, keepCount, data')
    requires Full(nodes, calls + more) && nodes != {}
    ensures data != map[] ==> data' != map[]
    ensures forall e, e' :: IsLatest(data, e) && IsLatest(data', e') ==> e <= e'
  {
    assert forall c :: c in calls ==> c in calls + more;
    assert Epochs(calls) <= Epochs(calls + more);
    RetainsNewest(nodes, calls, keepCount, data);
    RetainsNewest(nodes, calls + more, keepCount, data');
    if data != map[] {
      var e :| e in data;
      NewestNotEmpty(data'.Keys, Epochs(calls + more), keepCount, e);
    }
    forall e, e' | IsLatest(data, e) && IsLatest(data', e') ensures e <= e' {
      LatestIsNewest(nodes, calls, keepCount, data, e);
      LatestIsNewest(nodes, calls + more, keepCount, data', e');
    }
  }

  lemma NewestNotEmpty(kept: set<nat>, all: set<nat>, keepCount: int, e: nat)
    requires Newest(kept, all, keepCount) && e in all
    ensures kept != {}
  {
    SubsetSize({e}, all);
  }

  // ---------------------------------------------------------------- from reports to restored states

  /** With the callback installed, whatever is initiated when: an epoch is in the backend only after every
      graph node reported it, with exactly the states reported last before a completion, and the epochs kept
      are the newest that were ever complete. */
  lemma SavedAreReported(nodes: set<string>, h: History, keepCount: int, data: Stored)
    requires FromGraph(nodes, h) && nodes != {} && Persisted(Calls(nodes, h), keepCount, data)
    ensures forall e :: e in data ==> CompletedWith(nodes, h, e, data[e]) && Reporters(h, e) == nodes
    ensures Newest(data.Keys, Epochs(Calls(nodes, h)), keepCount)
  {
    CallsFull(nodes, h);
    RetainsNewest(nodes, Calls(nodes, h), keepCount, data);
    forall e | e in data ensures CompletedWith(nodes, h, e, data[e]) && Reporters(h, e) == nodes {
      StoredIsCompleted(nodes, h, keepCount, data, e);
    }
  }

  lemma StoredWereSaved(calls: seq<Call>, keepCount: int, data: Stored, e: nat)
    requires Newest(data.Keys, Epochs(calls), keepCount) && HoldsLast(data, calls) && e in data
    ensures Completed(e, data[e]) in calls
  {
    LastSavedIsCall(calls, e);
  }

  lemma StoredIsCompleted(nodes: set<string>, h: History, keepCount: int, data: Stored, e: nat)
    requires FromGraph(nodes, h) && nodes != {} && e in data
    requires Newest(data.Keys, Epochs(Calls(nodes, h)), keepCount) && HoldsLast(data, Calls(nodes, h))
    ensures CompletedWith(nodes, h, e, data[e]) && Reporters(h, e) == nodes
  {
    StoredWereSaved(Calls(nodes, h), keepCount, data, e);
    CallsCarryLastReports(nodes, h, Completed(e, data[e]));
    CompletedIsReported(nodes, h, e, data[e]);
  }

  /** The epochs saved are those that were ever complete. */
  lemma EverCompleted(nodes: set<string>, h: History, e: nat)
    requires FromGraph(nodes, h) && nodes != {}
    ensures e in Epochs(Calls(nodes, h)) <==> exists states :: CompletedWith(nodes, h, e, states)
  {
    var calls := Calls(nodes, h);
    if e in Epochs(calls) {
      LastSavedIsCall(calls, e);
      CallsCarryLastReports(nodes, h, Completed(e, LastSaved(calls, e)));
    }
    if states :| CompletedWith(nodes, h, e, states) {
      CallsCarryLastReports(nodes, h, Completed(e, states));
    }
  }

  lemma {:induction false} CompletedIsReported(nodes: set<string>, h: History, epoch: nat, states: States)
    requires FromGraph(nodes, h) && CompletedWith(nodes, h, epoch, states)
    ensures Reporters(h, epoch) == nodes
  {
    ReportersGrow(nodes, h, epoch);
    if CompletedWith(nodes, h.before, epoch, states) {
      CompletedIsReported(nodes, h.before, epoch, states);
    } else {
      LastReportsReported(h, epoch);
    }
  }

  /** With no late initiation the epochs ever complete are those that all nodes have reported. */
  lemma CompleteAreReported(nodes: set<string>, h: History)
    requires FromGraph(nodes, h) && nodes != {} && WellTimed(h)
    ensures forall e :: e in Epochs(Calls(nodes, h)) <==> Reporters(h, e) == nodes
  {
    forall e ensures e in Epochs(Calls(nodes, h)) <==> Reporters(h, e) == nodes {
      CompletionCalledOnce(nodes, h, e);
      CountPositive(Calls(nodes, h), e);
    }
  }

  function HistoryOf(events: seq<Event>): History {
    if events == [] then Start else After(HistoryOf(events[..|events| - 1]), events[|events| - 1])
  }

  lemma PersistedSnoc(calls: seq<Call>, c: Call, keepCount: int, before: Stored, data: Stored)
    requires Persisted(calls, keepCount, before)
    requires if c.Quiescence? then data == before else SavedFrom(before, c, keepCount, data)
    ensures Persisted(calls + [c], keepCount, data)
  {
    assert (calls + [c])[..|calls|] == calls;
  }

  method CallBackOnce(m: CheckpointManager, c: Call)
    requires m.nodeStates == map[] && c.Completed? && c.states != map[]
    modifies m, m.backend
    ensures m.nodeStates == map[] && SavedFrom(old(m.backend.data), c, m.keepCount, m.backend.data)
  {
    m.OnCheckpointComplete(c.epoch, c.states);
    assert StatesOf(map[], c.epoch) + c.states == c.states;
  }

  /** The callbacks of one event. */
  method CallBack(m: CheckpointManager, calls: seq<Call>, ghost earlier: seq<Call>)
    requires m.nodeStates == map[] && Persisted(earlier, m.keepCount, m.backend.data)
    requires forall c :: c in calls && c.Completed? ==> c.states != map[]
    modifies m, m.backend
    ensures m.nodeStates == map[] && Persisted(earlier + calls, m.keepCount, m.backend.data)
  {
    Assoc(earlier, [], []);
    ghost var made := earlier;
    for j := 0 to |calls|
      invariant m.nodeStates == map[] && made == earlier + calls[..j]
      invariant Persisted(made, m.keepCount, m.backend.data)
    {
      ghost var before := m.backend.data;
      if calls[j].Completed? {
        CallBackOnce(m, calls[j]);
      }
      PersistedSnoc(made, calls[j], m.keepCount, before, m.backend.data);
      MadeNext(earlier, calls, j);
      made := made + [calls[j]];
    }
    assert calls[..|calls|] == calls;
  }

  lemma MadeNext(earlier: seq<Call>, calls: seq<Call>, j: nat)
    requires j < |calls|
    ensures earlier + calls[..j + 1] == earlier + calls[..j] + [calls[j]]
  {
    assert calls[..j + 1] == calls[..j] + [calls[j]];
    Assoc(earlier, calls[..j], [calls[j]]);
  }

  /** The controller's loop over what nodes and callers send it, with the builder's callback installed. */
  method Serve(c: Controller, m: CheckpointManager, events: seq<Event>)
    requires c.Now() == Ctl(map[], {}, false) && m.nodeStates == map[] && m.backend.data == map[]
    requires c.nodeIDs != {} && FromGraph(c.nodeIDs, HistoryOf(events))
    modifies c, m, m.backend
    ensures c.Now() == Final(c.nodeIDs, HistoryOf(events))
    ensures m.nodeStates == map[]
    ensures Persisted(Calls(c.nodeIDs, HistoryOf(events)), m.keepCount, m.backend.data)
  {
    for i := 0 to |events|
      invariant c.Now() == Final(c.nodeIDs, HistoryOf(events[..i])) && m.nodeStates == map[]
      invariant Persisted(Calls(c.nodeIDs, HistoryOf(events[..i])), m.keepCount, m.backend.data)
    {
      ghost var h := HistoryOf(events[..i]);
      NextHistory(c.nodeIDs, events, i);
      var calls := Handle(c, events[i]);
      CallsFull(c.nodeIDs, After(h, events[i]));
      NotEmpty(c.nodeIDs, Calls(c.nodeIDs, h), calls);
      CallBack(m, calls, Calls(c.nodeIDs, h));
    }
    assert events[..|events|] == events;
  }

  method Handle(c: Controller, ev: Event) returns (calls: seq<Call>)
    modifies c
    ensures Tick(c.Now(), calls) == OnEvent(c.nodeIDs, old(c.Now()), ev)
  {
    match ev {
      case Initiate(epoch, thenStop) =>
        c.InitiateCheckpoint(epoch, thenStop);
        calls := [];
      case Report(node, epoch, state) => calls := c.HandleCompletion(node, epoch, state);
      case Stopped(node) => calls := c.HandleNodeStopped(node);
    }
  }

  lemma NextHistory(nodes: set<string>, events: seq<Event>, i: nat)
    requires i < |events| && FromGraph(nodes, HistoryOf(events))
    ensures HistoryOf(events[..i + 1]) == After(HistoryOf(events[..i]), events[i])
    ensures FromGraph(nodes, HistoryOf(events[..i + 1]))
  {
    assert events[..i + 1][..i] == events[..i];
    EarlierFromGraph(nodes, events, i + 1);
  }

  lemma {:induction false} EarlierFromGraph(nodes: set<string>, events: seq<Event>, i: nat)
    requires i <= |events| && FromGraph(nodes, HistoryOf(events))
    ensures FromGraph(nodes, HistoryOf(events[..i]))
    decreases |events|
  {
    if i == |events| {
      assert events[..i] == events;
    } else {
      var front := events[..|events| - 1];
      assert front[..i] == events[..i];
      EarlierFromGraph(nodes, front, i);
    }
  }

  lemma NotEmpty(nodes: set<string>, earlier: seq<Call>, calls: seq<Call>)
    requires nodes != {} && Full(nodes, earlier + calls)
    ensures forall c :: c in calls && c.Completed? ==> c.states != map[]
  {
    forall c | c in calls && c.Completed? ensures c.states != map[] {
      assert c in earlier + calls;
    }
  }

  lemma CallsFull(nodes: set<string>, h: History)
    requires FromGraph(nodes, h) && nodes != {}
    ensures Full(nodes, Calls(nodes, h))
  {
    forall c | c in Calls(nodes, h) && c.Completed? ensures c.states.Keys == nodes {
      CallsCarryLastReports(nodes, h, c);
      CompletedIsFull(nodes, h, c.epoch, c.states);
    }
  }

  lemma {:induction false} CompletedIsFull(nodes: set<string>, h: History, epoch: nat, states: States)
    requires CompletedWith(nodes, h, epoch, states)
    ensures states.Keys == nodes
  {
    if CompletedWith(nodes, h.before, epoch, states) {
      CompletedIsFull(nodes, h.before, epoch, states);
    }
  }

  lemma {:induction false} CountPositive(calls: seq<Call>, e: nat)
    ensures e in Epochs(calls) <==> Count(calls, e) > 0
  {
    if calls == [] {
    } else {
      var front, last := calls[..|calls| - 1], calls[|calls| - 1];
      CountPositive(front, e);
      assert calls == front + [last];
      EpochsSnoc(front, last);
    }
  }

  lemma {:induction false} LastSavedIsCall(calls: seq<Call>, e: nat)
    requires e in Epochs(calls)
    ensures Completed(e, LastSaved(calls, e)) in calls
  {
    var front, last := calls[..|calls| - 1], calls[|calls| - 1];
    assert calls == front + [last];
    EpochsSnoc(front, last);
    if !(last.Completed? && last.epoch == e) {
      LastSavedIsCall(front, e);
    }
  }
}
