/** Per-input watermarks and the watermark a node emits (internal/engine/watermark.go). */
module Watermarks {
  import opened Messages

  /** The last report of one input. */
  datatype Slot = Slot(eventTime: Time, idle: bool, received: bool)

  const NO_REPORT := Slot(ZERO_TIME, false, false)

  /** The earliest report of an input that is not idle. */
  function Lowest(slots: seq<Slot>): Option<Time> {
    if slots == [] then None
    else
      var best, s := Lowest(slots[..|slots| - 1]), slots[|slots| - 1];
      if s.received && !s.idle && (best.None? || s.eventTime < best.value) then Some(s.eventTime) else best
  }

  /** The latest report of any input. */
  function Highest(slots: seq<Slot>): Option<Time> {
    if slots == [] then None
    else
      var best, s := Highest(slots[..|slots| - 1]), slots[|slots| - 1];
      if s.received && (best.None? || s.eventTime > best.value) then Some(s.eventTime) else best
  }

  function Candidate(slots: seq<Slot>): Option<WatermarkSignal> {
    match Lowest(slots)
    case Some(t) => Some(WatermarkSignal(t, false))
    case None =>
      match Highest(slots)
      case Some(t) => Some(WatermarkSignal(t, true))
      case None => None
  }

  predicate AllReported(slots: seq<Slot>) {
    forall i :: 0 <= i < |slots| ==> slots[i].received
  }

  datatype Holder = Holder(slots: seq<Slot>, current: Time)

  function FreshHolder(n: nat): Holder {
    Holder(seq(n, _ => NO_REPORT), ZERO_TIME)
  }

  datatype Advance = Advance(holder: Holder, emitted: Option<WatermarkSignal>)

  function AdvanceSpec(h: Holder): Advance {
    var c := Candidate(h.slots);
    if c.Some? && c.value.eventTime > h.current
    then Advance(h.(current := c.value.eventTime), c)
    else Advance(h, None)
  }

  function UpdateSpec(h: Holder, input: int, wm: WatermarkSignal): Advance {
    if !(0 <= input < |h.slots|) then Advance(h, None)
    else
      var h1 := h.(slots := h.slots[input := Slot(wm.eventTime, wm.idle, true)]);
      if AllReported(h1.slots) then AdvanceSpec(h1) else Advance(h1, None)
  }

  class WatermarkHolder {
    const numInputs: nat
    var perInput: seq<Slot>
    var current: Time

    ghost predicate Valid()
      reads this
    {
      |perInput| == numInputs >= 1
    }

    ghost function State(): Holder
      reads this
    {
      Holder(perInput, current)
    }

    constructor (numInputs: int)
      ensures Valid() && this.numInputs == (if numInputs <= 0 then 1 else numInputs)
      ensures State() == FreshHolder(this.numInputs)
    {
      var n := if numInputs <= 0 then 1 else numInputs;
      this.numInputs := n;
      perInput := seq(n, _ => NO_REPORT);
      current := ZERO_TIME;
    }

    method Update(input: int, wm: WatermarkSignal) returns (advanced: Option<WatermarkSignal>)
      requires Valid()
      modifies this
      ensures Valid()
      ensures Advance(State(), advanced) == UpdateSpec(old(State()), input, wm)
    {
      if input < 0 || input >= numInputs {
        return None;
      }
      perInput := perInput[input := Slot(wm.eventTime, wm.idle, true)];
      if numInputs == 1 {
        advanced := TryAdvance();
        return;
      }
      var i := 0;
      while i < numInputs
        invariant 0 <= i <= numInputs
        invariant forall j :: 0 <= j < i ==> perInput[j].received
      {
        if !perInput[i].received {
          return None;
        }
        i := i + 1;
      }
      advanced := TryAdvance();
    }

    method TryAdvance() returns (advanced: Option<WatermarkSignal>)
      requires Valid()
      modifies this`current
      ensures Advance(State(), advanced) == AdvanceSpec(old(State()))
    {
      var minTime := ZERO_TIME;
      var allIdle, hasNonIdle, initialized := true, false, false;
      for i := 0 to numInputs
        invariant Lowest(perInput[..i]) == if initialized then Some(minTime) else None
        invariant initialized == hasNonIdle == !allIdle
      {
        assert perInput[..i + 1][..i] == perInput[..i];
        var iw := perInput[i];
        if iw.received && !iw.idle {
          allIdle, hasNonIdle := false, true;
          if !initialized || iw.eventTime < minTime {
            minTime, initialized := iw.eventTime, true;
          }
        }
      }
      assert perInput[..numInputs] == perInput;
      if allIdle {
        for i := 0 to numInputs
          invariant Highest(perInput[..i]) == if initialized then Some(minTime) else None
        {
          assert perInput[..i + 1][..i] == perInput[..i];
          var iw := perInput[i];
          if iw.received && (!initialized || iw.eventTime > minTime) {
            minTime, initialized := iw.eventTime, true;
          }
        }
        assert perInput[..numInputs] == perInput;
        if !initialized || minTime <= current {
          return None;
        }
        current := minTime;
        return Some(WatermarkSignal(minTime, true));
      }
      if !hasNonIdle || !initialized || minTime <= current {
        return None;
      }
      current := minTime;
      return Some(WatermarkSignal(minTime, false));
    }
  }

  // ---------------------------------------------------------------- what the candidate means

  ghost predicate IsMinOfActive(slots: seq<Slot>, t: Time) {
    && (exists i :: 0 <= i < |slots| && slots[i].received && !slots[i].idle && slots[i].eventTime == t)
    && (forall i :: 0 <= i < |slots| && slots[i].received && !slots[i].idle ==> t <= slots[i].eventTime)
  }

  ghost predicate IsMaxOfReported(slots: seq<Slot>, t: Time) {
    && (exists i :: 0 <= i < |slots| && slots[i].received && slots[i].eventTime == t)
    && (forall i :: 0 <= i < |slots| && slots[i].received ==> slots[i].eventTime <= t)
  }

  lemma {:induction false} LowestIsMin(slots: seq<Slot>)
    ensures Lowest(slots).Some? ==> IsMinOfActive(slots, Lowest(slots).value)
    ensures Lowest(slots).None? ==> forall i :: 0 <= i < |slots| && slots[i].received ==> slots[i].idle
  {
    if slots == [] {
    } else {
      var front := slots[..|slots| - 1];
      LowestIsMin(front);
      assert forall i :: 0 <= i < |front| ==> front[i] == slots[i];
      if Lowest(slots).Some? && Lowest(slots) == Lowest(front) {
        var i :| 0 <= i < |front| && front[i].received && !front[i].idle && front[i].eventTime == Lowest(front).value;
        assert slots[i].eventTime == Lowest(slots).value;
      }
    }
  }

  lemma {:induction false} HighestIsMax(slots: seq<Slot>)
    ensures Highest(slots).Some? ==> IsMaxOfReported(slots, Highest(slots).value)
    ensures Highest(slots).None? ==> forall i :: 0 <= i < |slots| ==> !slots[i].received
  {
    if slots == [] {
    } else {
      var front := slots[..|slots| - 1];
      HighestIsMax(front);
      assert forall i :: 0 <= i < |front| ==> front[i] == slots[i];
      if Highest(slots).Some? && Highest(slots) == Highest(front) {
        var i :| 0 <= i < |front| && front[i].received && front[i].eventTime == Highest(front).value;
        assert slots[i].eventTime == Highest(slots).value;
      }
    }
  }

  /** Once every input has reported, the candidate is the minimum over the inputs that are not idle
      and, when all are idle, the maximum over all. */
  lemma CandidateMeaning(slots: seq<Slot>)
    requires slots != [] && AllReported(slots)
    ensures Candidate(slots).Some?
    ensures !Candidate(slots).value.idle ==> IsMinOfActive(slots, Candidate(slots).value.eventTime)
    ensures Candidate(slots).value.idle ==>
              IsMaxOfReported(slots, Candidate(slots).value.eventTime) && forall i :: 0 <= i < |slots| ==> slots[i].idle
  {
    LowestIsMin(slots);
    HighestIsMax(slots);
    assert slots[0].received;
  }

  // ---------------------------------------------------------------- runs

  datatype Report = Report(input: int, wm: WatermarkSignal)

  datatype History = History(holder: Holder, emitted: seq<WatermarkSignal>, candidates: seq<Time>)

  /** The reports in order, the watermarks emitted for them, and the candidate of every step taken
      when all inputs had reported. */
  function Run(n: nat, rs: seq<Report>): History {
    if rs == [] then History(FreshHolder(n), [], []) else Extend(Run(n, rs[..|rs| - 1]), rs[|rs| - 1])
  }

  function Extend(h: History, r: Report): History {
    var a := UpdateSpec(h.holder, r.input, r.wm);
    var c := Candidate(a.holder.slots);
    History(
      a.holder,
      if a.emitted.Some? then h.emitted + [a.emitted.value] else h.emitted,
      if 0 <= r.input < |a.holder.slots| && AllReported(a.holder.slots) && c.Some?
      then h.candidates + [c.value.eventTime] else h.candidates)
  }

  lemma RunSnoc(n: nat, rs: seq<Report>, r: Report)
    ensures Run(n, rs + [r]) == Extend(Run(n, rs), r)
  {
    assert (rs + [r])[..|rs|] == rs;
  }

  function MaxOf(ts: seq<Time>, floor: Time): Time {
    if ts == [] then floor
    else
      var m := MaxOf(ts[..|ts| - 1], floor);
      if ts[|ts| - 1] > m then ts[|ts| - 1] else m
  }

  ghost predicate StrictlyIncreasing(ws: seq<WatermarkSignal>) {
    forall i, j :: 0 <= i < j < |ws| ==> ws[i].eventTime < ws[j].eventTime
  }

  ghost predicate HistoryOk(n: nat, h: History) {
    && |h.holder.slots| == n
    && h.holder.current == MaxOf(h.candidates, ZERO_TIME) >= ZERO_TIME
    && EmittedOk(h)
  }

  ghost predicate EmittedOk(h: History) {
    && StrictlyIncreasing(h.emitted)
    && h.holder.current == (if h.emitted == [] then ZERO_TIME else h.emitted[|h.emitted| - 1].eventTime)
    && (forall j :: 0 <= j < |h.emitted| ==> ZERO_TIME < h.emitted[j].eventTime <= h.holder.current)
  }

  /** The current watermark is the running maximum of the candidates, never below the zero time, and
      the emitted watermarks strictly increase up to it, whatever is reported. */
  lemma {:induction false} RunningMaximum(n: nat, rs: seq<Report>)
    ensures HistoryOk(n, Run(n, rs))
  {
    if rs == [] {
    } else {
      RunningMaximum(n, rs[..|rs| - 1]);
      RunningStep(n, Run(n, rs[..|rs| - 1]), rs[|rs| - 1]);
    }
  }

  lemma RunningStep(n: nat, h: History, r: Report)
    requires HistoryOk(n, h)
    ensures HistoryOk(n, Extend(h, r))
  {
    var g := Extend(h, r);
    ExtendCases(h, r, g);
    if g.candidates != h.candidates {
      var t := g.candidates[|h.candidates|];
      MaxOfSnoc(h.candidates, t, g.candidates);
      if t > h.holder.current {
        EmittedSnoc(h, g, t);
      }
    }
  }

  /** A report changes nothing that is recorded here, or adds a candidate, which is emitted if it is later
      than the current watermark. */
  lemma ExtendCases(h: History, r: Report, g: History)
    requires g == Extend(h, r)
    ensures |g.holder.slots| == |h.holder.slots|
    ensures g.candidates == h.candidates ==> g.emitted == h.emitted && g.holder.current == h.holder.current
    ensures g.candidates != h.candidates ==>
              && |g.candidates| == |h.candidates| + 1 && h.candidates <= g.candidates
              && var t := g.candidates[|h.candidates|];
                 if t > h.holder.current then Emits(h, g, t)
                 else g.emitted == h.emitted && g.holder.current == h.holder.current
  {
    var a := UpdateSpec(h.holder, r.input, r.wm);
    if 0 <= r.input < |h.holder.slots| && AllReported(a.holder.slots) && Candidate(a.holder.slots).Some? {
      assert g.candidates[|h.candidates|] == Candidate(a.holder.slots).value.eventTime;
    }
  }

  /** One more watermark is emitted, and it becomes the current one. */
  ghost predicate Emits(h: History, g: History, t: Time) {
    && g.holder.current == t && |g.emitted| == |h.emitted| + 1
    && h.emitted <= g.emitted && g.emitted[|h.emitted|].eventTime == t
  }

  lemma MaxOfSnoc(ts: seq<Time>, t: Time, more: seq<Time>)
    requires |more| == |ts| + 1 && ts <= more && more[|ts|] == t
    ensures MaxOf(more, ZERO_TIME) == Max(t, MaxOf(ts, ZERO_TIME))
  {
    assert more[..|ts|] == ts;
  }

  lemma EmittedSnoc(h: History, g: History, t: Time)
    requires EmittedOk(h) && t > h.holder.current && h.holder.current >= ZERO_TIME && Emits(h, g, t)
    ensures EmittedOk(g)
  {
    assert forall j :: 0 <= j < |h.emitted| ==> g.emitted[j] == h.emitted[j];
  }

  /** The latest report of an input. */
  function Latest(rs: seq<Report>, i: int): Option<Time> {
    if rs == [] then None
    else if rs[|rs| - 1].input == i then Some(rs[|rs| - 1].wm.eventTime)
    else Latest(rs[..|rs| - 1], i)
  }

  /** Every input's reports never go back and none is idle. */
  ghost predicate MonotoneActive(n: nat, rs: seq<Report>) {
    rs == [] || (
      var front, r := rs[..|rs| - 1], rs[|rs| - 1];
      && MonotoneActive(n, front) && 0 <= r.input < n && !r.wm.idle
      && (Latest(front, r.input).Some? ==> Latest(front, r.input).value <= r.wm.eventTime))
  }

  lemma {:induction false} SlotsAreLatest(n: nat, rs: seq<Report>)
    requires MonotoneActive(n, rs)
    ensures |Run(n, rs).holder.slots| == n
    ensures forall i :: 0 <= i < n ==>
              var s := Run(n, rs).holder.slots[i];
              if Latest(rs, i).None? then s == NO_REPORT else s == Slot(Latest(rs, i).value, false, true)
  {
    if rs == [] {
    } else {
      SlotsAreLatest(n, rs[..|rs| - 1]);
    }
  }

  function Max(a: Time, b: Time): Time {
    if a > b then a else b
  }

  ghost predicate AtMinimum(h: Holder) {
    if AllReported(h.slots)
    then Lowest(h.slots).Some? && h.current == Max(Lowest(h.slots).value, ZERO_TIME)
    else h.current == ZERO_TIME
  }

  /** With monotone inputs that are never idle, the current watermark is the zero time until every
      input has reported; from then on it is the minimum of the inputs' latest reports, or the zero
      time if that is later. */
  lemma {:induction false} MinimumOfLatest(n: nat, rs: seq<Report>)
    requires n > 0 && MonotoneActive(n, rs)
    ensures var h := Run(n, rs).holder;
            && |h.slots| == n && AtMinimum(h)
            && (AllReported(h.slots) ==>
                  && IsMinOfActive(h.slots, Lowest(h.slots).value)
                  && forall i :: 0 <= i < n ==> Latest(rs, i) == Some(h.slots[i].eventTime) && !h.slots[i].idle)
  {
    SlotsAreLatest(n, rs);
    if rs != [] {
      var front, r := rs[..|rs| - 1], rs[|rs| - 1];
      MinimumOfLatest(n, front);
      SlotsAreLatest(n, front);
      MinimumStep(Run(n, front).holder, r);
    } else {
      assert !Run(n, rs).holder.slots[0].received;
    }
    LowestIsMin(Run(n, rs).holder.slots);
  }

  lemma MinimumStep(g: Holder, r: Report)
    requires AtMinimum(g) && 0 <= r.input < |g.slots| && !r.wm.idle
    requires forall i :: 0 <= i < |g.slots| ==> !g.slots[i].idle
    requires g.slots[r.input].received ==> g.slots[r.input].eventTime <= r.wm.eventTime
    ensures AtMinimum(UpdateSpec(g, r.input, r.wm).holder)
  {
    var slots := g.slots[r.input := Slot(r.wm.eventTime, false, true)];
    LowestIsMin(slots);
    LowestIsMin(g.slots);
    if AllReported(slots) {
      assert slots[0].received && !slots[0].idle;
      if AllReported(g.slots) {
        MinGrows(g.slots, slots, Lowest(g.slots).value, Lowest(slots).value);
      }
    } else {
      var i :| 0 <= i < |slots| && !slots[i].received;
      assert !g.slots[i].received;
    }
  }

  lemma MinGrows(g: seq<Slot>, h: seq<Slot>, a: Time, b: Time)
    requires |g| == |h| && AllReported(g) && AllReported(h)
    requires forall i :: 0 <= i < |g| ==> g[i].eventTime <= h[i].eventTime && !g[i].idle && !h[i].idle
    requires IsMinOfActive(g, a) && IsMinOfActive(h, b)
    ensures a <= b
  {
    var i :| 0 <= i < |h| && h[i].received && !h[i].idle && h[i].eventTime == b;
    assert a <= g[i].eventTime;
  }

  // ---------------------------------------------------------------- from the reports alone

  /** The last report of an input. */
  function LastReport(rs: seq<Report>, i: int): Option<WatermarkSignal> {
    if rs == [] then None
    else if rs[|rs| - 1].input == i then Some(rs[|rs| - 1].wm)
    else LastReport(rs[..|rs| - 1], i)
  }

  function SlotOf(last: Option<WatermarkSignal>): Slot {
    match last
    case None => NO_REPORT
    case Some(w) => Slot(w.eventTime, w.idle, true)
  }

  /** Each slot is exactly its input's last report, idle flag included. */
  lemma {:induction false} SlotsHoldLast(n: nat, rs: seq<Report>)
    ensures |Run(n, rs).holder.slots| == n
    ensures forall i :: 0 <= i < n ==> Run(n, rs).holder.slots[i] == SlotOf(LastReport(rs, i))
  {
    if rs == [] {
    } else {
      SlotsHoldLast(n, rs[..|rs| - 1]);
    }
  }

  ghost predicate EveryInputReported(n: nat, rs: seq<Report>) {
    forall i :: 0 <= i < n ==> LastReport(rs, i).Some?
  }

  /** The watermark these reports call for, itself one of the last reports: the earliest of those that are not
      idle; if all are idle, the latest. */
  ghost predicate IsBest(n: nat, rs: seq<Report>, w: WatermarkSignal) {
    && (exists i :: 0 <= i < n && LastReport(rs, i) == Some(w))
    && forall i :: 0 <= i < n && LastReport(rs, i).Some? ==>
         var v := LastReport(rs, i).value;
         if w.idle then v.idle && v.eventTime <= w.eventTime else v.idle || w.eventTime <= v.eventTime
  }

  lemma BestUnique(n: nat, rs: seq<Report>, v: WatermarkSignal, w: WatermarkSignal)
    requires IsBest(n, rs, v) && IsBest(n, rs, w)
    ensures v == w
  {
    var i :| 0 <= i < n && LastReport(rs, i) == Some(v);
    var j :| 0 <= j < n && LastReport(rs, j) == Some(w);
  }

  /** The holder's candidate is that watermark. */
  lemma CandidateIsBest(n: nat, rs: seq<Report>)
    requires n > 0 && EveryInputReported(n, rs)
    ensures var c := Candidate(Run(n, rs).holder.slots); c.Some? && IsBest(n, rs, c.value)
  {
    SlotsHoldLast(n, rs);
    var slots := Run(n, rs).holder.slots;
    CandidateMeaning(slots);
    var w := Candidate(slots).value;
    var i :| 0 <= i < n && slots[i].received && slots[i].idle == w.idle && slots[i].eventTime == w.eventTime;
    assert LastReport(rs, i) == Some(w);
  }

  datatype Emitted = Emitted(current: Time, watermarks: seq<WatermarkSignal>)

  /** What a node should emit, by the reports alone: after each report of one of its inputs, once every input
      has reported, the watermark called for, provided it is later than all before. */
  ghost function Reference(n: nat, rs: seq<Report>): Emitted {
    if rs == [] then Emitted(ZERO_TIME, [])
    else
      var p, input := Reference(n, rs[..|rs| - 1]), rs[|rs| - 1].input;
      if 0 <= input < n && EveryInputReported(n, rs) && exists w :: IsBest(n, rs, w) then
        var w :| IsBest(n, rs, w);
        if w.eventTime > p.current then Emitted(w.eventTime, p.watermarks + [w]) else p
      else p
  }

  lemma AllReportedMeaning(n: nat, rs: seq<Report>)
    ensures |Run(n, rs).holder.slots| == n
    ensures AllReported(Run(n, rs).holder.slots) <==> EveryInputReported(n, rs)
  {
    SlotsHoldLast(n, rs);
  }

  /** What the holder emits for one more report. */
  lemma ReportEmits(n: nat, rs: seq<Report>)
    requires n > 0 && rs != []
    ensures var h, g := Run(n, rs[..|rs| - 1]), Run(n, rs);
            var c, input := Candidate(g.holder.slots), rs[|rs| - 1].input;
            if 0 <= input < n && EveryInputReported(n, rs) && c.Some? && c.value.eventTime > h.holder.current
            then g.emitted == h.emitted + [c.value] && g.holder.current == c.value.eventTime
            else g.emitted == h.emitted && g.holder.current == h.holder.current
  {
    AllReportedMeaning(n, rs[..|rs| - 1]);
    AllReportedMeaning(n, rs);
  }

  /** Whatever is reported, idle or not, in order or not, the holder emits exactly those watermarks, with the
      idle flag of the report they come from. */
  lemma {:induction false} EmitsReference(n: nat, rs: seq<Report>)
    requires n > 0
    ensures Emitted(Run(n, rs).holder.current, Run(n, rs).emitted) == Reference(n, rs)
  {
    if rs == [] {
    } else {
      EmitsReference(n, rs[..|rs| - 1]);
      ReportEmits(n, rs);
      if EveryInputReported(n, rs) {
        CandidateIsBest(n, rs);
        var c := Candidate(Run(n, rs).holder.slots).value;
        forall w | IsBest(n, rs, w) ensures w == c {
          BestUnique(n, rs, w, c);
        }
      }
    }
  }
}
