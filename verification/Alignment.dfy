/** Barrier alignment at nodes with several inputs (internal/engine/barrier_aligner.go). */
module Alignment {
  import opened Collections
  import opened Messages

  /** The aligner's fields. `held` is the list of buffered messages with the input each came from;
      the program keeps only the messages. */
  datatype AlignState = AlignState(
    numInputs: nat,
    aligning: bool,
    received: set<nat>,
    held: seq<Indexed>,
    barrier: Option<BarrierSignal>)

  function Fresh(numInputs: nat): AlignState {
    AlignState(numInputs, false, {}, [], None)
  }

  datatype StepResult = StepResult(state: AlignState, released: seq<Indexed>, aligned: Option<BarrierSignal>)

  function OnMessageSpec(s: AlignState, im: Indexed): StepResult {
    if im.msg.Barrier? then
      OnBarrierSpec(s, im.input, im.msg.barrier)
    else if s.aligning && im.input in s.received then
      StepResult(s.(held := s.held + [im]), [], None)
    else
      StepResult(s, [im], None)
  }

  function OnBarrierSpec(s: AlignState, input: nat, b: BarrierSignal): StepResult {
    if s.numInputs <= 1 then
      StepResult(s, [], Some(b))
    else
      var s1 := if s.aligning then s else AlignState(s.numInputs, true, {}, [], Some(b));
      var s2 := s1.(received := s1.received + {input});
      if |s2.received| == s.numInputs then
        StepResult(Fresh(s.numInputs), s2.held, s2.barrier)
      else
        StepResult(s2, [], None)
  }

  /** Untagging, which is all the program stores. */
  function Untag(t: seq<Indexed>): seq<Message> {
    seq(|t|, i requires 0 <= i < |t| => t[i].msg)
  }

  class BarrierAligner {
    const numInputs: nat
    var currentEpoch: nat
    var received: set<nat>
    var buffered: seq<Message>
    var aligning: bool
    var currentBarrier: Option<BarrierSignal>
    ghost var held: seq<Indexed>

    ghost predicate Valid()
      reads this
    {
      && buffered == Untag(held)
      && currentEpoch == (if currentBarrier.Some? then currentBarrier.value.epoch else 0)
    }

    ghost function State(): AlignState
      reads this
    {
      AlignState(numInputs, aligning, received, held, currentBarrier)
    }

    constructor (numInputs: nat)
      ensures Valid() && State() == Fresh(numInputs)
    {
      this.numInputs := numInputs;
      currentEpoch, received, buffered, aligning, currentBarrier, held := 0, {}, [], false, None, [];
    }

    method OnMessage(im: Indexed) returns (toProcess: seq<Message>, aligned: Option<BarrierSignal>)
      requires Valid()
      modifies this
      ensures Valid()
      ensures var r := OnMessageSpec(old(State()), im);
              State() == r.state && toProcess == Untag(r.released) && aligned == r.aligned
    {
      if im.msg.Barrier? {
        toProcess, aligned := OnBarrier(im.input, im.msg.barrier);
        return;
      }
      if aligning && im.input in received {
        buffered, held := buffered + [im.msg], held + [im];
        return [], None;
      }
      return [im.msg], None;
    }

    method OnBarrier(input: nat, barrier: BarrierSignal)
      returns (toProcess: seq<Message>, aligned: Option<BarrierSignal>)
      requires Valid()
      modifies this
      ensures Valid()
      ensures var r := OnBarrierSpec(old(State()), input, barrier);
              State() == r.state && toProcess == Untag(r.released) && aligned == r.aligned
    {
      if numInputs <= 1 {
        return [], Some(barrier);
      }
      if !aligning {
        aligning, currentEpoch, currentBarrier := true, barrier.epoch, Some(barrier);
        received, buffered, held := {}, [], [];
      }
      received := received + {input};
      if |received| == numInputs {
        toProcess, aligned := buffered, currentBarrier;
        aligning, currentEpoch, currentBarrier := false, 0, None;
        received, buffered, held := {}, [], [];
        return;
      }
      return [], None;
    }
  }

  // ---------------------------------------------------------------- whole interleavings

  /** What an interleaving of the inputs has produced so far. */
  datatype Produced = Produced(state: AlignState, released: seq<Indexed>, aligned: seq<BarrierSignal>)

  function Extend(p: Produced, im: Indexed): Produced {
    var r := OnMessageSpec(p.state, im);
    Produced(r.state, p.released + r.released, p.aligned + (if r.aligned.Some? then [r.aligned.value] else []))
  }

  function Run(n: nat, t: seq<Indexed>): Produced {
    if t == [] then Produced(Fresh(n), [], [])
    else Extend(Run(n, t[..|t| - 1]), t[|t| - 1])
  }

  lemma RunSnoc(n: nat, t: seq<Indexed>, im: Indexed)
    ensures Run(n, t + [im]) == Extend(Run(n, t), im)
  {
    assert (t + [im])[..|t + [im]| - 1] == t;
  }

  ghost predicate InRange(n: nat, t: seq<Indexed>) {
    forall j :: 0 <= j < |t| ==> t[j].input < n
  }

  /** Invariant of every interleaving. */
  ghost predicate StateOk(n: nat, s: AlignState) {
    && s.numInputs == n
    && (s.aligning <==> s.barrier.Some?)
    && (!s.aligning ==> s.received == {} && s.held == [])
    && (s.aligning ==> n >= 2)
    && (forall i :: i in s.received ==> i < n)
    && |s.received| <= n
    && (n > 0 ==> |s.received| < n)
    && (forall j :: 0 <= j < |s.held| ==> s.held[j].input in s.received && !s.held[j].msg.Barrier?)
  }

  /** The input indices of a node. */
  ghost function Inputs(n: nat): (r: set<nat>)
    ensures forall i: nat :: i in r <==> i < n
    ensures |r| == n
  {
    if n == 0 then {} else Inputs(n - 1) + {n - 1}
  }

  /** A set of `n` inputs out of `n` holds all of them; a smaller one misses some. */
  lemma FullSet(n: nat, s: set<nat>)
    requires forall i :: i in s ==> i < n
    ensures |s| <= n && (|s| == n <==> s == Inputs(n))
  {
    SubsetSize(s, Inputs(n));
  }

  /** The four things a step can do: pass a message, hold it back, count a barrier, or align. */
  lemma StepCases(n: nat, s: AlignState, m: Indexed)
    requires StateOk(n, s) && m.input < n
    ensures var r := OnMessageSpec(s, m);
            && StateOk(n, r.state)
            && (!m.msg.Barrier? && m.input !in s.received ==> r == StepResult(s, [m], None))
            && (!m.msg.Barrier? && m.input in s.received ==> r == StepResult(s.(held := s.held + [m]), [], None))
            && (m.msg.Barrier? && r.aligned.None? ==>
                  r.released == [] && r.state.held == s.held && r.state.received == s.received + {m.input})
            && (r.aligned.Some? ==>
                  && m.msg.Barrier? && r.released == s.held && r.state == Fresh(n)
                  && (forall i: nat :: i < n && i != m.input ==> i in s.received)
                  && m.input !in s.received)
  {
    if m.msg.Barrier? && n >= 2 {
      FullSet(n, s.received + {m.input});
    }
  }

  lemma {:induction false} RunStateOk(n: nat, t: seq<Indexed>)
    requires InRange(n, t)
    ensures StateOk(n, Run(n, t).state)
  {
    if t == [] {
    } else {
      RunStateOk(n, t[..|t| - 1]);
      StepCases(n, Run(n, t[..|t| - 1]).state, t[|t| - 1]);
    }
  }

  /** What an input delivered is what was released from it followed by what is still held back. */
  ghost predicate Kept(p: Produced, i: nat, arrived: seq<Message>) {
    && Stream(p.released, i) + Stream(p.state.held, i) == NonBarriers(arrived)
    && (i !in p.state.received ==> Stream(p.state.held, i) == [])
  }

  /** Nothing lost, duplicated or invented, and every input keeps its order. */
  lemma KeepsEveryInput(n: nat, t: seq<Indexed>, i: nat)
    requires InRange(n, t)
    ensures Stream(Run(n, t).released, i) + Stream(Run(n, t).state.held, i) == NonBarriers(Stream(t, i))
    ensures i !in Run(n, t).state.received ==> Stream(Run(n, t).state.held, i) == []
  {
    KeptAlways(n, t, i);
  }

  lemma {:induction false} KeptAlways(n: nat, t: seq<Indexed>, i: nat)
    requires InRange(n, t)
    ensures Kept(Run(n, t), i, Stream(t, i))
  {
    if t == [] {
    } else {
      var front, m := t[..|t| - 1], t[|t| - 1];
      KeptAlways(n, front, i);
      RunStateOk(n, front);
      KeepsStep(n, Run(n, front), m, Run(n, t), i, Stream(front, i));
    }
  }

  lemma KeepsStep(n: nat, p: Produced, m: Indexed, q: Produced, i: nat, arrived: seq<Message>)
    requires StateOk(n, p.state) && m.input < n && q == Extend(p, m) && Kept(p, i, arrived)
    ensures Kept(q, i, Deliver(arrived, m, i))
  {
    StepCases(n, p.state, m);
    ExtendReleased(p, m, q);
    if !m.msg.Barrier? && m.input !in p.state.received {
      KeepsPassed(p, m, q, i, arrived);
    } else if !m.msg.Barrier? {
      KeepsHeld(p, m, q, i, arrived);
    } else if OnMessageSpec(p.state, m).aligned.None? {
      KeepsCounted(p, m, q, i, arrived);
    } else {
      KeepsAligned(p, m, q, i, arrived);
    }
  }

  lemma ExtendReleased(p: Produced, m: Indexed, q: Produced)
    requires q == Extend(p, m)
    ensures var r := OnMessageSpec(p.state, m);
            && q.state == r.state && q.released == p.released + r.released
            && (r.released == [] ==> q.released == p.released)
  {
  }

  lemma KeepsPassed(p: Produced, m: Indexed, q: Produced, i: nat, arrived: seq<Message>)
    requires Kept(p, i, arrived) && !m.msg.Barrier? && m.input !in p.state.received
    requires q.state == p.state && q.released == p.released + [m]
    ensures Kept(q, i, Deliver(arrived, m, i))
  {
    StreamSnoc(p.released, m, i);
    NonBarriersSnoc(arrived, m.msg);
    if m.input == i {
      Assoc(Stream(p.released, i), [m.msg], []);
      Assoc(Stream(p.released, i), [], []);
    }
  }

  lemma KeepsHeld(p: Produced, m: Indexed, q: Produced, i: nat, arrived: seq<Message>)
    requires Kept(p, i, arrived) && !m.msg.Barrier? && m.input in p.state.received
    requires q.released == p.released && q.state.held == p.state.held + [m] && q.state.received == p.state.received
    ensures Kept(q, i, Deliver(arrived, m, i))
  {
    StreamSnoc(p.state.held, m, i);
    NonBarriersSnoc(arrived, m.msg);
    Assoc(Stream(p.released, i), Stream(p.state.held, i), [m.msg]);
  }

  lemma KeepsCounted(p: Produced, m: Indexed, q: Produced, i: nat, arrived: seq<Message>)
    requires Kept(p, i, arrived) && m.msg.Barrier?
    requires q.released == p.released && q.state.held == p.state.held && p.state.received <= q.state.received
    ensures Kept(q, i, Deliver(arrived, m, i))
  {
    NonBarriersSnoc(arrived, m.msg);
  }

  lemma KeepsAligned(p: Produced, m: Indexed, q: Produced, i: nat, arrived: seq<Message>)
    requires Kept(p, i, arrived) && m.msg.Barrier?
    requires q.released == p.released + p.state.held && q.state.held == []
    ensures Kept(q, i, Deliver(arrived, m, i))
  {
    StreamAppend(p.released, p.state.held, i);
    NonBarriersSnoc(arrived, m.msg);
    Assoc(Stream(p.released, i), Stream(p.state.held, i), []);
    Assoc(NonBarriers(arrived), [], []);
  }

  /** The same as one multiset over all inputs. */
  lemma {:induction false} Conservation(n: nat, t: seq<Indexed>)
    requires InRange(n, t)
    ensures multiset(Run(n, t).released) + multiset(Run(n, t).state.held) == multiset(PayloadsOf(t))
  {
    if t == [] {
    } else {
      var front, m := t[..|t| - 1], t[|t| - 1];
      Conservation(n, front);
      RunStateOk(n, front);
      StepCases(n, Run(n, front).state, m);
    }
  }

  function PayloadsOf(t: seq<Indexed>): seq<Indexed> {
    if t == [] then []
    else PayloadsOf(t[..|t| - 1]) + (if t[|t| - 1].msg.Barrier? then [] else [t[|t| - 1]])
  }

  // ---------------------------------------------------------------- counting barriers

  /** The `m`-th message is a barrier from an input that the open alignment has already counted. */
  predicate Repeats(s: AlignState, m: Indexed) {
    m.msg.Barrier? && m.input in s.received
  }

  /** No input delivers a second barrier while an alignment is open. The program does not check it. */
  predicate NoRepeats(n: nat, t: seq<Indexed>) {
    t == [] || (NoRepeats(n, t[..|t| - 1]) && !Repeats(Run(n, t[..|t| - 1]).state, t[|t| - 1]))
  }

  /** How many barriers of input `i` were swallowed by an open alignment. */
  function Swallowed(n: nat, t: seq<Indexed>, i: nat): nat {
    if t == [] then 0
    else
      var front, m := t[..|t| - 1], t[|t| - 1];
      Swallowed(n, front, i) + (if m.input == i && Repeats(Run(n, front).state, m) then 1 else 0)
  }

  /** Every barrier an input delivered is accounted for: it took part in an alignment, it is waiting
      in the open one, or it was swallowed. In particular the k-th aligned barrier is emitted only
      after every input has delivered its k-th barrier. */
  lemma {:induction false} BarriersAccounted(n: nat, t: seq<Indexed>, i: nat)
    requires InRange(n, t) && i < n
    ensures |Barriers(Stream(t, i))| == |Run(n, t).aligned| + Counted(Run(n, t).state, i) + Swallowed(n, t, i)
  {
    if t == [] {
    } else {
      var front, m := t[..|t| - 1], t[|t| - 1];
      BarriersAccounted(n, front, i);
      RunStateOk(n, front);
      StepCases(n, Run(n, front).state, m);
      BarriersSnoc(Stream(front, i), m.msg);
      var p, q := Run(n, front), Run(n, t);
      assert q == Extend(p, m);
      assert |q.aligned| + Counted(q.state, i) ==
             |p.aligned| + Counted(p.state, i) +
             (if m.input == i && m.msg.Barrier? && !Repeats(p.state, m) then 1 else 0);
    }
  }

  /** One if the open alignment has counted input `i`. */
  function Counted(s: AlignState, i: nat): nat {
    if i in s.received then 1 else 0
  }

  lemma {:induction false} NoRepeatsIffNothingSwallowed(n: nat, t: seq<Indexed>)
    requires InRange(n, t)
    ensures NoRepeats(n, t) ==> forall i: nat :: i < n ==> Swallowed(n, t, i) == 0
    ensures (forall i: nat :: i < n ==> Swallowed(n, t, i) == 0) ==> NoRepeats(n, t)
  {
    if t == [] {
    } else {
      var front, m := t[..|t| - 1], t[|t| - 1];
      NoRepeatsIffNothingSwallowed(n, front);
      if Repeats(Run(n, front).state, m) {
        assert Swallowed(n, t, m.input) > 0;
      } else {
        forall i: nat ensures Swallowed(n, t, i) == Swallowed(n, front, i) {
        }
      }
    }
  }

  /** The exact count holds on every input if and only if no input repeats a barrier inside an open alignment. */
  lemma ExactCountIffNoRepeats(n: nat, t: seq<Indexed>)
    requires InRange(n, t)
    ensures NoRepeats(n, t) <==>
            forall i: nat :: i < n ==> |Barriers(Stream(t, i))| == |Run(n, t).aligned| + Counted(Run(n, t).state, i)
  {
    NoRepeatsIffNothingSwallowed(n, t);
    if NoRepeats(n, t) {
      forall i: nat | i < n ensures |Barriers(Stream(t, i))| == |Run(n, t).aligned| + Counted(Run(n, t).state, i) {
        BarriersAccounted(n, t, i);
      }
    } else {
      var i: nat :| i < n && Swallowed(n, t, i) != 0;
      BarriersAccounted(n, t, i);
    }
  }

  lemma ExactCount(n: nat, t: seq<Indexed>, i: nat)
    requires InRange(n, t) && NoRepeats(n, t) && i < n
    ensures |Barriers(Stream(t, i))| == |Run(n, t).aligned| + Counted(Run(n, t).state, i)
  {
    BarriersAccounted(n, t, i);
    NoRepeatsIffNothingSwallowed(n, t);
  }

  /** Two inputs, the first one epoch ahead: its second barrier vanishes, so after both inputs have
      delivered both barriers only the first is aligned and the second alignment never closes. */
  lemma SwallowedBarrierExample(b1: BarrierSignal, b2: BarrierSignal)
    ensures var t := AheadByOne(b1, b2);
            && Barriers(Stream(t, 0)) == Barriers(Stream(t, 1)) == [b1, b2]
            && Run(2, t).aligned == [b1] && Run(2, t).state.received == {1} && !NoRepeats(2, t)
  {
    AheadStream(b1, b2, 0);
    AheadStream(b1, b2, 1);
    AheadRun(b1, b2);
    var t := AheadByOne(b1, b2);
    ExactCountIffNoRepeats(2, t);
    assert |Barriers(Stream(t, 0))| != |Run(2, t).aligned| + Counted(Run(2, t).state, 0);
  }

  function AheadByOne(b1: BarrierSignal, b2: BarrierSignal): seq<Indexed> {
    [Indexed(0, Barrier(b1))] + [Indexed(0, Barrier(b2))] + [Indexed(1, Barrier(b1))] + [Indexed(1, Barrier(b2))]
  }

  lemma AheadStream(b1: BarrierSignal, b2: BarrierSignal, i: nat)
    requires i < 2
    ensures Barriers(Stream(AheadByOne(b1, b2), i)) == [b1, b2]
  {
    var t1 := [] + [Indexed(0, Barrier(b1))];
    StreamSnoc([], Indexed(0, Barrier(b1)), i);
    StreamSnoc(t1, Indexed(0, Barrier(b2)), i);
    StreamSnoc(t1 + [Indexed(0, Barrier(b2))], Indexed(1, Barrier(b1)), i);
    StreamSnoc(t1 + [Indexed(0, Barrier(b2))] + [Indexed(1, Barrier(b1))], Indexed(1, Barrier(b2)), i);
    assert Stream(AheadByOne(b1, b2), i) == [Barrier(b1)] + [Barrier(b2)];
    BarriersSnoc([], Barrier(b1));
    BarriersSnoc([Barrier(b1)], Barrier(b2));
  }

  lemma AheadRun(b1: BarrierSignal, b2: BarrierSignal)
    ensures Run(2, AheadByOne(b1, b2)) == Produced(AlignState(2, true, {1}, [], Some(b2)), [], [b1])
  {
    SwallowedSteps(b1, b2);
    var t1 := [] + [Indexed(0, Barrier(b1))];
    RunSnoc(2, [], Indexed(0, Barrier(b1)));
    RunSnoc(2, t1, Indexed(0, Barrier(b2)));
    RunSnoc(2, t1 + [Indexed(0, Barrier(b2))], Indexed(1, Barrier(b1)));
    RunSnoc(2, t1 + [Indexed(0, Barrier(b2))] + [Indexed(1, Barrier(b1))], Indexed(1, Barrier(b2)));
  }

  lemma SwallowedSteps(b1: BarrierSignal, b2: BarrierSignal)
    ensures var open := AlignState(2, true, {0}, [], Some(b1));
            && OnBarrierSpec(Fresh(2), 0, b1) == StepResult(open, [], None)
            && OnBarrierSpec(open, 0, b2) == StepResult(open, [], None)
            && OnBarrierSpec(open, 1, b1) == StepResult(Fresh(2), [], Some(b1))
            && OnBarrierSpec(Fresh(2), 1, b2) == StepResult(AlignState(2, true, {1}, [], Some(b2)), [], None)
  {
    var zero: set<nat>, one: set<nat> := {0}, {1};
    assert {} + zero == zero && zero + zero == zero && {} + one == one && |zero + one| == 2;
  }

  /** Barriers for one epoch differ in their timestamps when several sources inject them; the epochs count. */
  function EpochsOf(bs: seq<BarrierSignal>): (es: seq<nat>)
    ensures |es| == |bs| && forall k :: 0 <= k < |bs| ==> es[k] == bs[k].epoch
  {
    seq(|bs|, k requires 0 <= k < |bs| => bs[k].epoch)
  }

  lemma EpochsPrefix(bs: seq<BarrierSignal>, cs: seq<BarrierSignal>)
    requires bs <= cs
    ensures EpochsOf(bs) <= EpochsOf(cs)
  {
    assert forall k :: 0 <= k < |bs| ==> EpochsOf(bs)[k] == EpochsOf(cs)[k];
  }

  /** Every alignment so far is for the next epoch of the list, and so is the open one. */
  ghost predicate OnSchedule(p: Produced, all: seq<nat>) {
    && EpochsOf(p.aligned) <= all
    && (p.state.aligning ==>
          |p.aligned| < |all| && p.state.barrier.Some? && p.state.barrier.value.epoch == all[|p.aligned|])
  }

  /** If all inputs carry barriers for the same epochs in the same order, the aligned barriers are for
      those epochs in that order. */
  lemma {:induction false} AlignedInOrder(n: nat, t: seq<Indexed>, all: seq<nat>)
    requires InRange(n, t) && NoRepeats(n, t)
    requires forall i: nat :: i < n ==> EpochsOf(Barriers(Stream(t, i))) <= all
    ensures OnSchedule(Run(n, t), all)
  {
    if t == [] {
    } else {
      var front, m := t[..|t| - 1], t[|t| - 1];
      forall i: nat | i < n ensures EpochsOf(Barriers(Stream(front, i))) <= all {
        BarriersGrow(t, i);
        EpochsPrefix(Barriers(Stream(front, i)), Barriers(Stream(t, i)));
      }
      AlignedInOrder(n, front, all);
      RunStateOk(n, front);
      if m.msg.Barrier? {
        NextBarrier(n, t, all);
      }
      OrderStep(n, Run(n, front), m, all);
    }
  }

  lemma BarriersGrow(t: seq<Indexed>, i: nat)
    requires t != []
    ensures Barriers(Stream(t[..|t| - 1], i)) <= Barriers(Stream(t, i))
    ensures t[|t| - 1].input == i && t[|t| - 1].msg.Barrier? ==>
              Barriers(Stream(t, i)) == Barriers(Stream(t[..|t| - 1], i)) + [t[|t| - 1].msg.barrier]
  {
    BarriersSnoc(Stream(t[..|t| - 1], i), t[|t| - 1].msg);
  }

  lemma NextBarrier(n: nat, t: seq<Indexed>, all: seq<nat>)
    requires InRange(n, t) && NoRepeats(n, t) && t != [] && t[|t| - 1].msg.Barrier?
    requires EpochsOf(Barriers(Stream(t, t[|t| - 1].input))) <= all
    ensures var k := |Run(n, t[..|t| - 1]).aligned|; k < |all| && all[k] == t[|t| - 1].msg.barrier.epoch
  {
    var bs, k := Barriers(Stream(t, t[|t| - 1].input)), |Run(n, t[..|t| - 1]).aligned|;
    ExactCount(n, t[..|t| - 1], t[|t| - 1].input);
    BarriersGrow(t, t[|t| - 1].input);
    assert EpochsOf(bs)[k] == bs[k].epoch;
  }

  lemma OrderStep(n: nat, p: Produced, m: Indexed, all: seq<nat>)
    requires StateOk(n, p.state) && m.input < n && OnSchedule(p, all)
    requires m.msg.Barrier? ==> |p.aligned| < |all| && all[|p.aligned|] == m.msg.barrier.epoch
    ensures OnSchedule(Extend(p, m), all)
  {
    StepCases(n, p.state, m);
    var r, q := OnMessageSpec(p.state, m), Extend(p, m);
    if r.aligned.Some? {
      assert q.aligned == p.aligned + [r.aligned.value];
      assert forall k :: 0 <= k < |q.aligned| ==> EpochsOf(q.aligned)[k] == all[k];
    } else {
      assert q.aligned == p.aligned;
    }
  }

  // ---------------------------------------------------------------- which barrier is aligned

  /** How much of the interleaving had been delivered when the last alignment was made. */
  function LastAligned(n: nat, t: seq<Indexed>): (p: nat)
    ensures p <= |t|
  {
    if t == [] then 0
    else if |Run(n, t).aligned| > |Run(n, t[..|t| - 1]).aligned| then |t|
    else LastAligned(n, t[..|t| - 1])
  }

  /** The first barrier delivered from a place on, by any input. */
  function FirstBarrier(t: seq<Indexed>, from: nat): Option<BarrierSignal>
    requires from <= |t|
    decreases |t| - from
  {
    if from == |t| then None
    else if t[from].msg.Barrier? then Some(t[from].msg.barrier)
    else FirstBarrier(t, from + 1)
  }

  lemma {:induction false} FirstBarrierSnoc(t: seq<Indexed>, m: Indexed, from: nat)
    requires from <= |t|
    ensures FirstBarrier(t + [m], from) ==
            if FirstBarrier(t, from).Some? then FirstBarrier(t, from)
            else if m.msg.Barrier? then Some(m.msg.barrier) else None
    decreases |t| - from
  {
    if from == |t| {
      assert FirstBarrier(t + [m], |t| + 1) == None;
    } else {
      assert (t + [m])[from] == t[from];
      FirstBarrierSnoc(t, m, from + 1);
    }
  }

  /** With two or more inputs, the open alignment keeps the barrier that opened it. */
  lemma {:induction false} KeepsOpeningBarrier(n: nat, t: seq<Indexed>)
    requires InRange(n, t) && n >= 2
    ensures Run(n, t).state.barrier == FirstBarrier(t, LastAligned(n, t))
  {
    if t == [] {
    } else {
      var front, m := t[..|t| - 1], t[|t| - 1];
      KeepsOpeningBarrier(n, front);
      RunStateOk(n, front);
      SplitLast(t);
      FirstBarrierSnoc(front, m, LastAligned(n, front));
      BarrierStep(n, Run(n, front), m);
    }
  }

  lemma BarrierStep(n: nat, p: Produced, m: Indexed)
    requires StateOk(n, p.state) && m.input < n && n >= 2
    ensures var q := Extend(p, m);
            if |q.aligned| > |p.aligned| then q.state.barrier == None
            else q.state.barrier ==
                 if p.state.barrier.None? && m.msg.Barrier? then Some(m.msg.barrier) else p.state.barrier
  {
    StepCases(n, p.state, m);
  }

  /** Whatever the inputs deliver, the barrier an alignment yields is the first one delivered after the message
      that made the alignment before it. */
  lemma AlignsFirstBarrier(n: nat, t: seq<Indexed>, m: Indexed)
    requires InRange(n, t + [m]) && |Run(n, t + [m]).aligned| > |Run(n, t).aligned|
    ensures |Run(n, t + [m]).aligned| == |Run(n, t).aligned| + 1 && Run(n, t).aligned <= Run(n, t + [m]).aligned
    ensures Some(Run(n, t + [m]).aligned[|Run(n, t).aligned|]) == FirstBarrier(t + [m], LastAligned(n, t))
  {
    RunSnoc(n, t, m);
    FirstBarrierSnoc(t, m, LastAligned(n, t));
    assert (t + [m])[|t|] == m;
    assert forall j :: 0 <= j < |t| ==> (t + [m])[j] == t[j];
    RunStateOk(n, t);
    if n >= 2 {
      KeepsOpeningBarrier(n, t);
    } else {
      NothingSinceAligned(n, t);
    }
  }

  lemma PassesAtOnce(n: nat, p: Produced, m: Indexed)
    requires StateOk(n, p.state) && n <= 1
    ensures |Extend(p, m).aligned| > |p.aligned| <==> m.msg.Barrier?
  {
  }

  /** With one input every barrier is an alignment. */
  lemma {:induction false} NothingSinceAligned(n: nat, t: seq<Indexed>)
    requires InRange(n, t) && n <= 1
    ensures FirstBarrier(t, LastAligned(n, t)) == None
  {
    if t == [] {
    } else {
      var front, m := t[..|t| - 1], t[|t| - 1];
      NothingSinceAligned(n, front);
      RunStateOk(n, front);
      PassesAtOnce(n, Run(n, front), m);
      if m.msg.Barrier? {
        assert LastAligned(n, t) == |t|;
      } else {
        SplitLast(t);
        FirstBarrierSnoc(front, m, LastAligned(n, front));
      }
    }
  }

  /** Message `p` is its input's `k`-th barrier. */
  predicate IsKth(t: seq<Indexed>, p: nat, k: nat) {
    p < |t| && t[p].msg.Barrier? && |Barriers(Stream(t[..p], t[p].input))| + 1 == k
  }

  ghost predicate NoneIsKth(t: seq<Indexed>, k: nat) {
    forall p: nat :: p < |t| ==> !IsKth(t, p, k)
  }

  /** Message `p` is the earliest `k`-th barrier of any input. */
  ghost predicate IsEarliestKth(t: seq<Indexed>, p: nat, k: nat) {
    IsKth(t, p, k) && forall q: nat :: q < p ==> !IsKth(t, q, k)
  }

  lemma IsKthSnoc(t: seq<Indexed>, m: Indexed, p: nat, k: nat)
    requires p < |t|
    ensures IsKth(t + [m], p, k) == IsKth(t, p, k)
  {
    assert (t + [m])[..p] == t[..p] && (t + [m])[p] == t[p];
  }

  lemma EarliestSnoc(t: seq<Indexed>, m: Indexed, p: nat, k: nat)
    requires IsEarliestKth(t, p, k)
    ensures IsEarliestKth(t + [m], p, k) && (t + [m])[p] == t[p]
  {
    IsKthSnoc(t, m, p, k);
    forall q: nat | q < p ensures !IsKth(t + [m], q, k) {
      IsKthSnoc(t, m, q, k);
    }
  }

  /** The open alignment was opened by the earliest of the barriers it waits for. */
  ghost predicate OpenedByEarliest(t: seq<Indexed>, p: Produced) {
    if p.state.aligning then
      exists i: nat :: IsEarliestKth(t, i, |p.aligned| + 1) && p.state.barrier == Some(t[i].msg.barrier)
    else NoneIsKth(t, |p.aligned| + 1)
  }

  ghost predicate AlignedEarliest(t: seq<Indexed>, aligned: seq<BarrierSignal>, k: nat) {
    && 0 < k <= |aligned|
    && exists i: nat :: IsEarliestKth(t, i, k) && t[i].msg.barrier == aligned[k - 1]
  }

  /** A barrier of an input that the open alignment has not counted is the input's next. */
  lemma NextKth(n: nat, t: seq<Indexed>, m: Indexed)
    requires InRange(n, t + [m]) && NoRepeats(n, t + [m])
    ensures IsKth(t + [m], |t|, |Run(n, t).aligned| + 1) <==> m.msg.Barrier?
  {
    assert (t + [m])[..|t|] == t && (t + [m])[|t|] == m;
    assert InRange(n, t) by {
      assert forall j :: 0 <= j < |t| ==> (t + [m])[j] == t[j];
    }
    ExactCount(n, t, m.input);
  }

  lemma {:induction false} KthCounted(t: seq<Indexed>, i: nat, k: nat)
    requires IsKth(t, i, k)
    ensures |Barriers(Stream(t, t[i].input))| >= k
  {
    var front, m := t[..|t| - 1], t[|t| - 1];
    SplitLast(t);
    BarriersSnoc(Stream(front, t[i].input), m.msg);
    if i < |t| - 1 {
      IsKthSnoc(front, m, i, k);
      KthCounted(front, i, k);
    }
  }

  /** While no alignment is open, nobody is ahead. */
  lemma NobodyAhead(n: nat, t: seq<Indexed>)
    requires InRange(n, t) && NoRepeats(n, t) && !Run(n, t).state.aligning
    ensures NoneIsKth(t, |Run(n, t).aligned| + 1)
  {
    var k := |Run(n, t).aligned| + 1;
    RunStateOk(n, t);
    forall i: nat | i < |t| ensures !IsKth(t, i, k) {
      if IsKth(t, i, k) {
        KthCounted(t, i, k);
        ExactCount(n, t, t[i].input);
      }
    }
  }

  /** The first barrier after an alignment is the earliest of its round. */
  lemma OpensEarliest(n: nat, t: seq<Indexed>, m: Indexed)
    requires InRange(n, t) && InRange(n, t + [m]) && NoRepeats(n, t) && NoRepeats(n, t + [m])
    requires m.msg.Barrier? && !Run(n, t).state.aligning
    ensures IsEarliestKth(t + [m], |t|, |Run(n, t).aligned| + 1) && (t + [m])[|t|] == m
  {
    var k := |Run(n, t).aligned| + 1;
    NextKth(n, t, m);
    NobodyAhead(n, t);
    forall q: nat | q < |t| ensures !IsKth(t + [m], q, k) {
      IsKthSnoc(t, m, q, k);
    }
  }

  /** What one more message does to the barrier in hand. */
  lemma BarrierInHand(n: nat, p: Produced, m: Indexed)
    requires StateOk(n, p.state) && m.input < n
    ensures var q := Extend(p, m);
            if |q.aligned| > |p.aligned| then
              && m.msg.Barrier?
              && q.aligned == p.aligned + [if p.state.aligning then p.state.barrier.value else m.msg.barrier]
            else
              && q.aligned == p.aligned
              && (q.state.aligning ==>
                    q.state.barrier == if p.state.aligning then p.state.barrier else Some(m.msg.barrier))
              && (q.state.aligning && !p.state.aligning ==> m.msg.Barrier?)
              && (p.state.aligning ==> q.state.aligning)
  {
    StepCases(n, p.state, m);
  }

  /** One step of a run, as far as the barrier in hand goes. A barrier that is delivered while none is in hand
      is the earliest of its round. */
  ghost predicate HandOver(t: seq<Indexed>, m: Indexed, p: Produced, q: Produced) {
    && (p.state.aligning ==> p.state.barrier.Some?)
    && (!p.state.aligning && m.msg.Barrier? ==> IsEarliestKth(t + [m], |t|, |p.aligned| + 1))
    && (q.state.aligning ==> |q.aligned| == |p.aligned|)
    && if |q.aligned| > |p.aligned| then
         m.msg.Barrier? && q.aligned == p.aligned + [if p.state.aligning then p.state.barrier.value else m.msg.barrier]
       else
         && q.aligned == p.aligned
         && (q.state.aligning && p.state.aligning ==> q.state.barrier == p.state.barrier)
         && (q.state.aligning && !p.state.aligning ==> m.msg.Barrier? && q.state.barrier == Some(m.msg.barrier))
  }

  /** A step that aligns leaves no alignment open. */
  lemma OpenMeansNotAligned(n: nat, p: Produced, m: Indexed)
    requires StateOk(n, p.state) && m.input < n && Extend(p, m).state.aligning
    ensures |Extend(p, m).aligned| == |p.aligned|
  {
    StepCases(n, p.state, m);
  }

  lemma RunHandsOver(n: nat, t: seq<Indexed>, m: Indexed)
    requires InRange(n, t) && InRange(n, t + [m]) && NoRepeats(n, t) && NoRepeats(n, t + [m])
    ensures HandOver(t, m, Run(n, t), Run(n, t + [m]))
  {
    var p, q := Run(n, t), Run(n, t + [m]);
    RunSnoc(n, t, m);
    RunStateOk(n, t);
    assert (t + [m])[|t|] == m;
    BarrierInHand(n, p, m);
    if q.state.aligning {
      OpenMeansNotAligned(n, p, m);
    }
    if !p.state.aligning && m.msg.Barrier? {
      OpensEarliest(n, t, m);
    }
  }

  lemma InHandIsEarliest(t: seq<Indexed>, m: Indexed, p: Produced, q: Produced) returns (i: nat)
    requires HandOver(t, m, p, q) && OpenedByEarliest(t, p) && (p.state.aligning || m.msg.Barrier?)
    ensures IsEarliestKth(t + [m], i, |p.aligned| + 1)
    ensures (t + [m])[i].msg.barrier == if p.state.aligning then p.state.barrier.value else m.msg.barrier
  {
    if p.state.aligning {
      i :| IsEarliestKth(t, i, |p.aligned| + 1) && p.state.barrier == Some(t[i].msg.barrier);
      EarliestSnoc(t, m, i, |p.aligned| + 1);
    } else {
      i := |t|;
      assert (t + [m])[|t|] == m;
    }
  }

  lemma StaysOpened(t: seq<Indexed>, m: Indexed, p: Produced, q: Produced)
    requires HandOver(t, m, p, q) && OpenedByEarliest(t, p)
    requires !q.state.aligning ==> NoneIsKth(t + [m], |q.aligned| + 1)
    ensures OpenedByEarliest(t + [m], q)
  {
    if q.state.aligning {
      var i := InHandIsEarliest(t, m, p, q);
      assert q.state.barrier == Some((t + [m])[i].msg.barrier);
    }
  }

  lemma AlignedStays(t: seq<Indexed>, m: Indexed, p: Produced, q: Produced, k: nat)
    requires HandOver(t, m, p, q) && OpenedByEarliest(t, p)
    requires 0 < k <= |p.aligned| ==> AlignedEarliest(t, p.aligned, k)
    ensures 0 < k <= |q.aligned| ==> AlignedEarliest(t + [m], q.aligned, k)
  {
    if 0 < k <= |p.aligned| {
      var i: nat :| IsEarliestKth(t, i, k) && t[i].msg.barrier == p.aligned[k - 1];
      EarliestSnoc(t, m, i, k);
      assert q.aligned[k - 1] == p.aligned[k - 1];
    } else if 0 < k <= |q.aligned| {
      var i := InHandIsEarliest(t, m, p, q);
      assert q.aligned[k - 1] == (t + [m])[i].msg.barrier;
    }
  }

  /** Stated over the interleaving alone: if no input repeats a barrier in an open alignment, the `k`-th
      aligned barrier is the earliest of the inputs' `k`-th barriers. */
  lemma {:induction false} AlignsEarliest(n: nat, t: seq<Indexed>, k: nat)
    requires InRange(n, t) && NoRepeats(n, t)
    ensures OpenedByEarliest(t, Run(n, t))
    ensures 0 < k <= |Run(n, t).aligned| ==> AlignedEarliest(t, Run(n, t).aligned, k)
  {
    if t == [] {
    } else {
      var front, m := t[..|t| - 1], t[|t| - 1];
      SplitLast(t);
      AlignsEarliest(n, front, k);
      AlignsEarliestNext(n, front, m, k);
    }
  }

  lemma AlignsEarliestNext(n: nat, t: seq<Indexed>, m: Indexed, k: nat)
    requires InRange(n, t) && InRange(n, t + [m]) && NoRepeats(n, t) && NoRepeats(n, t + [m])
    requires OpenedByEarliest(t, Run(n, t))
    requires 0 < k <= |Run(n, t).aligned| ==> AlignedEarliest(t, Run(n, t).aligned, k)
    ensures OpenedByEarliest(t + [m], Run(n, t + [m]))
    ensures 0 < k <= |Run(n, t + [m]).aligned| ==> AlignedEarliest(t + [m], Run(n, t + [m]).aligned, k)
  {
    RunHandsOver(n, t, m);
    if !Run(n, t + [m]).state.aligning {
      NobodyAhead(n, t + [m]);
    }
    StaysOpened(t, m, Run(n, t), Run(n, t + [m]));
    AlignedStays(t, m, Run(n, t), Run(n, t + [m]), k);
  }

  // ---------------------------------------------------------------- the consistent cut

  /** At every moment each input has been released exactly up to the barrier that the next aligned
      barrier waits for: completely, if that barrier has not arrived. */
  lemma {:induction false} ReleasedIsCut(n: nat, t: seq<Indexed>, i: nat)
    requires InRange(n, t) && NoRepeats(n, t) && i < n
    ensures Stream(Run(n, t).released, i) == Cut(Stream(t, i), |Run(n, t).aligned| + 1)
  {
    ExactCount(n, t, i);
    if i !in Run(n, t).state.received {
      KeepsEveryInput(n, t, i);
      CutOpen(Stream(t, i), |Run(n, t).aligned| + 1);
    } else if t != [] {
      var front := t[..|t| - 1];
      ReleasedIsCut(n, front, i);
      RunStateOk(n, front);
      ExactCount(n, front, i);
      CutStep(n, Run(n, front), t[|t| - 1], i, Stream(front, i));
    }
  }

  /** A step that leaves some input counted passes its message on, or releases nothing. */
  lemma OpenStep(n: nat, p: Produced, m: Indexed, q: Produced)
    requires StateOk(n, p.state) && m.input < n && q == Extend(p, m) && q.state.received != {}
    ensures q.aligned == p.aligned
    ensures q.released == if m.msg.Barrier? || m.input in p.state.received then p.released else p.released + [m]
  {
    StepCases(n, p.state, m);
    ExtendReleased(p, m, q);
  }

  /** One step while the alignment that counts input `i` stays open. */
  lemma CutStep(n: nat, p: Produced, m: Indexed, i: nat, arrived: seq<Message>)
    requires StateOk(n, p.state) && m.input < n
    requires i in Extend(p, m).state.received
    requires |Barriers(arrived)| == |p.aligned| + Counted(p.state, i)
    requires Stream(p.released, i) == Cut(arrived, |p.aligned| + 1)
    ensures Stream(Extend(p, m).released, i) == Cut(Deliver(arrived, m, i), |Extend(p, m).aligned| + 1)
  {
    var q := Extend(p, m);
    OpenStep(n, p, m, q);
    CutSnoc(arrived, m.msg, |p.aligned| + 1);
    StreamSnoc(p.released, m, i);
  }

  /** The aligning call. What had been released before it is exactly each input's prefix in front of
      the aligned barrier. The call then releases what was held back, all of it sent after that
      barrier, so the snapshot that follows covers the cut plus the held-back messages. The two agree
      on every input if and only if nothing was held back. */
  lemma SnapshotIsCutPlusHeld(n: nat, t: seq<Indexed>, m: Indexed)
    requires InRange(n, t + [m]) && NoRepeats(n, t + [m])
    requires |Run(n, t + [m]).aligned| > |Run(n, t).aligned|
    ensures var p, q := Run(n, t), Run(n, t + [m]);
            var k := |q.aligned|;
            && k == |p.aligned| + 1
            && q.released == p.released + p.state.held && q.state.held == []
            && (forall i: nat :: i < n ==> |Barriers(Stream(t + [m], i))| == k)
            && (forall i: nat :: i < n ==> Stream(p.released, i) == Cut(Stream(t + [m], i), k))
            && (forall i: nat :: i < n ==>
                  Stream(q.released, i) == Cut(Stream(t + [m], i), k) + Stream(p.state.held, i))
            && (p.state.held == [] <==>
                  forall i: nat :: i < n ==> Stream(q.released, i) == Cut(Stream(t + [m], i), k))
  {
    var p, q := Run(n, t), Run(n, t + [m]);
    RunSnoc(n, t, m);
    assert (t + [m])[..|t|] == t && (t + [m])[|t|] == m;
    RunStateOk(n, t);
    StepCases(n, p.state, m);
    forall i: nat | i < n
      ensures |Barriers(Stream(t + [m], i))| == |q.aligned|
      ensures Stream(p.released, i) == Cut(Stream(t + [m], i), |q.aligned|)
      ensures Stream(q.released, i) == Stream(p.released, i) + Stream(p.state.held, i)
    {
      AligningCall(n, t, m, i);
    }
    if p.state.held != [] {
      NonEmptyStream(p.state.held);
    }
  }

  lemma NonEmptyStream(h: seq<Indexed>)
    requires h != []
    ensures |Stream(h, h[|h| - 1].input)| > 0
  {
  }

  lemma AligningCall(n: nat, t: seq<Indexed>, m: Indexed, i: nat)
    requires InRange(n, t + [m]) && InRange(n, t) && NoRepeats(n, t + [m]) && NoRepeats(n, t) && i < n && m.msg.Barrier?
    requires Run(n, t + [m]).released == Run(n, t).released + Run(n, t).state.held
    requires |Run(n, t + [m]).aligned| == |Run(n, t).aligned| + 1
    requires Run(n, t + [m]).state.received == {}
    ensures |Barriers(Stream(t + [m], i))| == |Run(n, t + [m]).aligned|
    ensures Stream(Run(n, t).released, i) == Cut(Stream(t + [m], i), |Run(n, t + [m]).aligned|)
    ensures Stream(Run(n, t + [m]).released, i) == Stream(Run(n, t).released, i) + Stream(Run(n, t).state.held, i)
  {
    ExactCount(n, t + [m], i);
    ReleasedIsCut(n, t, i);
    StreamSnoc(t, m, i);
    CutSnoc(Stream(t, i), m.msg, |Run(n, t).aligned| + 1);
    StreamAppend(Run(n, t).released, Run(n, t).state.held, i);
  }

  /** Two inputs; the first delivers its barrier and then a message before the second's barrier. The
      snapshot covers that message although it follows the barrier on its input. */
  lemma HeldBackExample(b: BarrierSignal, d: Message)
    requires !d.Barrier?
    ensures var t := [Indexed(0, Barrier(b))] + [Indexed(0, d)];
            var m := Indexed(1, Barrier(b));
            && Run(2, t + [m]).aligned == [b] && Run(2, t + [m]).released == [Indexed(0, d)]
            && Cut(Stream(t + [m], 0), 1) == [] && Stream(Run(2, t + [m]).released, 0) == [d]
  {
    var m0, m1, m2 := Indexed(0, Barrier(b)), Indexed(0, d), Indexed(1, Barrier(b));
    var t1 := [] + [m0];
    SwallowedSteps(b, b);
    RunSnoc(2, [], m0);
    RunSnoc(2, t1, m1);
    RunSnoc(2, t1 + [m1], m2);
    var one: set<nat> := {1};
    assert {0} + one == {0, 1};
    HeldStep(b, m1);
    StreamSnoc([], m0, 0);
    StreamSnoc(t1, m1, 0);
    StreamSnoc(t1 + [m1], m2, 0);
    StreamSnoc([], m1, 0);
    assert [] + [m1] == [m1];
    CutSnoc([], Barrier(b), 1);
    BarriersSnoc([], Barrier(b));
    CutSnoc([Barrier(b)], d, 1);
  }

  lemma HeldStep(b: BarrierSignal, m: Indexed)
    ensures OnBarrierSpec(AlignState(2, true, {0}, [m], Some(b)), 1, b) == StepResult(Fresh(2), [m], Some(b))
  {
    var zero: set<nat>, one: set<nat> := {0}, {1};
    assert |zero + one| == 2;
  }

  /** A node with one input never aligns: each barrier passes at once and nothing is held back. */
  lemma {:induction false} SingleInput(t: seq<Indexed>)
    requires InRange(1, t)
    ensures Run(1, t).aligned == Barriers(Stream(t, 0)) && Run(1, t).state == Fresh(1) && NoRepeats(1, t)
    ensures Stream(Run(1, t).released, 0) == NonBarriers(Stream(t, 0))
  {
    if t == [] {
    } else {
      var front, m := t[..|t| - 1], t[|t| - 1];
      SingleInput(front);
      SingleStep(Run(1, front), m, Stream(front, 0));
    }
  }

  lemma SingleStep(p: Produced, m: Indexed, arrived: seq<Message>)
    requires m.input == 0 && p.state == Fresh(1)
    requires p.aligned == Barriers(arrived) && Stream(p.released, 0) == NonBarriers(arrived)
    ensures var q := Extend(p, m);
            && q.state == Fresh(1) && q.aligned == Barriers(arrived + [m.msg])
            && Stream(q.released, 0) == NonBarriers(arrived + [m.msg])
  {
    BarriersSnoc(arrived, m.msg);
    NonBarriersSnoc(arrived, m.msg);
    StreamSnoc(p.released, m, 0);
    Assoc(p.released, [], []);
    Assoc(p.aligned, [], []);
  }
}
