/** SleepOperator (internal/engine/timer.go): a delay line over the timer queue. */
module Sleep {
  import opened Messages
  import opened Codecs
  import opened Timers
  import opened Schedules

  /** "sleep-" */
  const PREFIX: Bytes := [115, 108, 101, 101, 112, 45]

  datatype State = State(pending: map<Bytes, DataMessage>, counter: nat, timers: seq<TimerEntry>)

  ghost function OnArrive(s: State, delay: int, msg: DataMessage, now: Time): State {
    var name := Name(PREFIX, s.counter);
    State(s.pending[name := msg], s.counter + 1, Insert(s.timers, TimerEntry(name, now + delay)))
  }

  datatype Handling = Handling(pending: map<Bytes, DataMessage>, out: seq<DataMessage>)

  function OnTimer(a: Handling, name: Bytes): Handling {
    if name in a.pending then Handling(a.pending - {name}, a.out + [a.pending[name]]) else a
  }

  /** Handling the first `n` of some timers. */
  function OnTimers(pending: map<Bytes, DataMessage>, ts: seq<TimerEntry>, n: nat): Handling
    requires n <= |ts|
  {
    if n == 0 then Handling(pending, []) else OnTimer(OnTimers(pending, ts, n - 1), ts[n - 1].name)
  }

  ghost function OnFire(s: State, now: Time): State {
    var n := Due(s.timers, now);
    State(OnTimers(s.pending, s.timers, n).pending, s.counter, s.timers[n..])
  }

  ghost function Fired(s: State, now: Time): seq<DataMessage> {
    OnTimers(s.pending, s.timers, Due(s.timers, now)).out
  }

  class SleepOperator {
    const delay: int
    var pending: map<Bytes, DataMessage>
    var counter: nat

    constructor (delay: int)
      ensures this.delay == delay && pending == map[] && counter == 0
    {
      this.delay := delay;
      pending, counter := map[], 0;
    }

    ghost function Now(tmr: TimerManager): State
      reads this, tmr
    {
      State(pending, counter, tmr.timers)
    }

    method ProcessMessage(msg: DataMessage, now: Time, tmr: TimerManager)
      requires Sorted(tmr.timers)
      modifies this, tmr
      ensures Now(tmr) == OnArrive(old(Now(tmr)), delay, msg, now) && Sorted(tmr.timers)
    {
      counter := counter + 1;
      var name := PREFIX + Decimal(counter);
      pending := pending[name := msg];
      tmr.Register(name, now + delay);
    }

    method HandleTimer(name: Bytes) returns (out: seq<DataMessage>)
      modifies this
      ensures counter == old(counter)
      ensures Handling(pending, out) == OnTimer(Handling(old(pending), []), name)
    {
      if name in pending {
        out := [pending[name]];
        pending := pending - {name};
      } else {
        out := [];
      }
    }

    /** The runtime's fireExpiredTimers on this operator. */
    method FireExpired(now: Time, tmr: TimerManager) returns (out: seq<DataMessage>)
      requires Sorted(tmr.timers)
      modifies this, tmr
      ensures Now(tmr) == OnFire(old(Now(tmr)), now) && out == Fired(old(Now(tmr)), now) && Sorted(tmr.timers)
    {
      var expired := tmr.PopExpired(now);
      out := [];
      for i := 0 to |expired|
        invariant Handling(pending, out) == OnTimers(old(pending), old(tmr.timers), i)
        invariant counter == old(counter) && tmr.timers == old(tmr.timers)[|expired|..]
      {
        var emitted := HandleTimer(expired[i].name);
        out := out + emitted;
      }
    }
  }

  // ---------------------------------------------------------------- runs

  datatype Running = Running(state: State, emitted: seq<Emission>)

  ghost function Run(h: History, delay: int): Running {
    match h
    case Start => Running(State(map[], 0, []), [])
    case After(before, Arrive(msg, now)) =>
      var r := Run(before, delay);
      Running(OnArrive(r.state, delay, msg, now), r.emitted)
    case After(before, Fire(now)) =>
      var r := Run(before, delay);
      Running(OnFire(r.state, now), r.emitted + Stamp(Fired(r.state, now), now))
  }

  /** The buffered messages are the arrivals from `lo` on, under their timers' names. */
  ghost predicate Holds(pending: map<Bytes, DataMessage>, arr: seq<Arrival>, lo: nat) {
    forall k: nat :: lo <= k < |arr| ==> Name(PREFIX, k) in pending && pending[Name(PREFIX, k)] == arr[k].msg
  }

  lemma HoldsArrive(pending: map<Bytes, DataMessage>, arr: seq<Arrival>, lo: nat, a: Arrival)
    requires Holds(pending, arr, lo) && lo <= |arr|
    ensures Holds(pending[Name(PREFIX, |arr|) := a.msg], arr + [a], lo)
  {
    var more, p := arr + [a], pending[Name(PREFIX, |arr|) := a.msg];
    forall k: nat | lo <= k < |more| ensures Name(PREFIX, k) in p && p[Name(PREFIX, k)] == more[k].msg {
      NameInjective(PREFIX, k, |arr|);
    }
  }

  lemma HoldsRemove(pending: map<Bytes, DataMessage>, arr: seq<Arrival>, lo: nat)
    requires Holds(pending, arr, lo) && lo < |arr|
    ensures Holds(pending - {Name(PREFIX, lo)}, arr, lo + 1)
  {
    var p := pending - {Name(PREFIX, lo)};
    forall k: nat | lo + 1 <= k < |arr| ensures Name(PREFIX, k) in p && p[Name(PREFIX, k)] == arr[k].msg {
      NameInjective(PREFIX, k, lo);
    }
  }

  /** The messages of the arrivals from `lo` up to `hi`. */
  function Msgs(arr: seq<Arrival>, lo: nat, hi: nat): (out: seq<DataMessage>)
    requires lo <= hi <= |arr|
    ensures |out| == hi - lo
    decreases hi
  {
    if lo == hi then [] else Msgs(arr, lo, hi - 1) + [arr[hi - 1].msg]
  }

  lemma {:induction false} MsgsAt(arr: seq<Arrival>, lo: nat, hi: nat, i: nat)
    requires lo <= hi <= |arr| && i < hi - lo
    ensures Msgs(arr, lo, hi)[i] == arr[lo + i].msg
  {
    if i < hi - lo - 1 {
      MsgsAt(arr, lo, hi - 1, i);
    }
  }

  lemma TimerEmits(a: Handling, arr: seq<Arrival>, lo: nat, k: nat)
    requires lo <= k < |arr| && Holds(a.pending, arr, k) && a.out == Msgs(arr, lo, k)
    ensures var b := OnTimer(a, Name(PREFIX, k)); Holds(b.pending, arr, k + 1) && b.out == Msgs(arr, lo, k + 1)
  {
    assert Name(PREFIX, k) in a.pending && a.pending[Name(PREFIX, k)] == arr[k].msg;
    HoldsRemove(a.pending, arr, k);
  }

  lemma {:induction false} TimersEmit(pending: map<Bytes, DataMessage>, ts: seq<TimerEntry>, arr: seq<Arrival>,
        lo: nat, delay: int, n: nat)
    requires Holds(pending, arr, lo) && Line(PREFIX, ts, arr, lo, delay) && n <= |ts|
    ensures Holds(OnTimers(pending, ts, n).pending, arr, lo + n)
    ensures OnTimers(pending, ts, n).out == Msgs(arr, lo, lo + n)
  {
    if n == 0 {
    } else {
      TimersEmit(pending, ts, arr, lo, delay, n - 1);
      LineAt(PREFIX, ts, arr, lo, delay, n - 1);
      TimerEmits(OnTimers(pending, ts, n - 1), arr, lo, lo + (n - 1));
    }
  }

  ghost predicate SleepOk(s: State, arr: seq<Arrival>, lo: nat, delay: int) {
    s.counter == |arr| && Line(PREFIX, s.timers, arr, lo, delay) && Holds(s.pending, arr, lo)
  }

  lemma ArriveOk(s: State, arr: seq<Arrival>, lo: nat, delay: int, a: Arrival)
    requires SleepOk(s, arr, lo, delay) && Ordered(arr + [a])
    ensures SleepOk(OnArrive(s, delay, a.msg, a.at), arr + [a], lo, delay)
  {
    assert Holds(s.pending[Name(PREFIX, |arr|) := a.msg], arr + [a], lo) by {
      HoldsArrive(s.pending, arr, lo, a);
    }
    assert Line(PREFIX, Insert(s.timers, TimerEntry(Name(PREFIX, |arr|), a.at + delay)), arr + [a], lo, delay) by {
      LineInsert(PREFIX, s.timers, arr, lo, delay, a);
    }
  }

  lemma FireOk(s: State, arr: seq<Arrival>, lo: nat, delay: int, now: Time)
    requires SleepOk(s, arr, lo, delay)
    ensures SleepOk(OnFire(s, now), arr, Ripe(arr, lo, delay, now), delay)
    ensures Fired(s, now) == Msgs(arr, lo, Ripe(arr, lo, delay, now))
  {
    var n := Due(s.timers, now);
    DueIsRipe(PREFIX, s.timers, arr, lo, delay, now);
    assert Line(PREFIX, s.timers[n..], arr, lo + n, delay) by {
      LinePop(PREFIX, s.timers, arr, lo, delay, n);
    }
    assert Holds(OnTimers(s.pending, s.timers, n).pending, arr, lo + n)
          && OnTimers(s.pending, s.timers, n).out == Msgs(arr, lo, lo + n) by {
      TimersEmit(s.pending, s.timers, arr, lo, delay, n);
    }
  }

  lemma {:induction false} SleepInvariant(h: History, delay: int)
    requires Monotone(h)
    ensures SleepOk(Run(h, delay).state, Arrivals(h), Served(h, delay), delay)
  {
    if h.Start? {
    } else {
      SleepInvariant(h.before, delay);
      ArrivalsOrdered(h);
      var s, arr, lo := Run(h.before, delay).state, Arrivals(h.before), Served(h.before, delay);
      match h.event {
        case Arrive(msg, now) => ArriveOk(s, arr, lo, delay, Arrival(msg, now));
        case Fire(now) => FireOk(s, arr, lo, delay, now);
      }
    }
  }

  /** The messages of the queued timers, in queue order. */
  ghost function Waiting(s: State): seq<DataMessage>
    requires forall i: nat :: i < |s.timers| ==> s.timers[i].name in s.pending
  {
    seq(|s.timers|, i requires 0 <= i < |s.timers| => s.pending[s.timers[i].name])
  }

  /** `emitted` are the first arrivals, in order, none before its delay has passed. */
  ghost predicate InTurn(emitted: seq<Emission>, arr: seq<Arrival>, delay: int) {
    && |emitted| <= |arr|
    && forall i: nat :: i < |emitted| ==> emitted[i].msg == arr[i].msg && emitted[i].at >= arr[i].at + delay
  }

  /** Every queued timer has its message in `pending`, and every message its timer. */
  ghost predicate Matched(s: State) {
    && (forall i: nat :: i < |s.timers| ==> s.timers[i].name in s.pending)
    && (forall name :: name in s.pending ==> Queued(s.timers, name))
  }

  /** The messages are emitted in order of arrival, each at most once and never before the delay has
      passed; those not yet emitted wait in the queue in that order, and nothing else is kept. */
  lemma DelayLine(h: History, delay: int)
    requires Monotone(h)
    ensures InTurn(Run(h, delay).emitted, Arrivals(h), delay)
    ensures Matched(Run(h, delay).state)
    ensures Waiting(Run(h, delay).state) == Msgs(Arrivals(h), |Run(h, delay).emitted|, |Arrivals(h)|)
  {
    EmittedInTurn(h, delay);
    SleepInvariant(h, delay);
    QueuedIsPending(Run(h, delay).state, Arrivals(h), Served(h, delay), delay);
    forall name | name in Run(h, delay).state.pending ensures Queued(Run(h, delay).state.timers, name) {
      NothingElseKept(h, delay, name);
    }
  }

  lemma {:induction false} EmittedInTurn(h: History, delay: int)
    requires Monotone(h)
    ensures InTurn(Run(h, delay).emitted, Arrivals(h), delay) && |Run(h, delay).emitted| == Served(h, delay)
  {
    if h.Start? {
    } else {
      EmittedInTurn(h.before, delay);
      var emitted, arr := Run(h.before, delay).emitted, Arrivals(h.before);
      match h.event {
        case Arrive(msg, now) => ArriveInTurn(emitted, arr, Arrival(msg, now), delay);
        case Fire(now) =>
          FireEmits(h, delay);
          MoreInTurn(emitted, arr, delay, now, Served(h, delay));
      }
    }
  }

  lemma FireEmits(h: History, delay: int)
    requires Monotone(h) && h.After? && h.event.Fire?
    ensures var more := Msgs(Arrivals(h), Served(h.before, delay), Served(h, delay));
            Run(h, delay).emitted == Run(h.before, delay).emitted + Stamp(more, h.event.now)
  {
    SleepInvariant(h.before, delay);
    FireOk(Run(h.before, delay).state, Arrivals(h), Served(h.before, delay), delay, h.event.now);
  }

  lemma ArriveInTurn(emitted: seq<Emission>, arr: seq<Arrival>, a: Arrival, delay: int)
    requires InTurn(emitted, arr, delay)
    ensures InTurn(emitted, arr + [a], delay)
  {
  }

  lemma MoreInTurn(emitted: seq<Emission>, arr: seq<Arrival>, delay: int, now: Time, hi: nat)
    requires InTurn(emitted, arr, delay) && |emitted| <= hi <= |arr|
    requires forall i: nat :: |emitted| <= i < hi ==> arr[i].at + delay <= now
    ensures InTurn(emitted + Stamp(Msgs(arr, |emitted|, hi), now), arr, delay)
  {
    var n, more := |emitted|, emitted + Stamp(Msgs(arr, |emitted|, hi), now);
    forall i: nat | i < |more| ensures more[i].msg == arr[i].msg && more[i].at >= arr[i].at + delay {
      if i >= n {
        MsgsAt(arr, n, hi, i - n);
      }
    }
  }

  lemma QueuedIsPending(s: State, arr: seq<Arrival>, lo: nat, delay: int)
    requires SleepOk(s, arr, lo, delay)
    ensures forall i: nat :: i < |s.timers| ==> s.timers[i].name in s.pending
    ensures Waiting(s) == Msgs(arr, lo, |arr|)
  {
    forall i: nat | i < |s.timers| ensures s.timers[i].name in s.pending
          && s.pending[s.timers[i].name] == Msgs(arr, lo, |arr|)[i] {
      LineAt(PREFIX, s.timers, arr, lo, delay, i);
      MsgsAt(arr, lo, |arr|, i);
    }
  }

  // ---------------------------------------------------------------- nothing else is kept

  predicate Queued(ts: seq<TimerEntry>, name: Bytes) {
    exists i: nat :: i < |ts| && ts[i].name == name
  }

  lemma {:induction false} HandledAreGone(pending: map<Bytes, DataMessage>, ts: seq<TimerEntry>, n: nat, name: Bytes)
    requires n <= |ts| && name in OnTimers(pending, ts, n).pending
    ensures name in pending && forall i: nat :: i < n ==> ts[i].name != name
  {
    if n == 0 {
    } else {
      HandledAreGone(pending, ts, n - 1, name);
    }
  }

  /** A buffered message has its timer in the queue, whatever the clock does. */
  lemma {:induction false} NothingElseKept(h: History, delay: int, name: Bytes)
    ensures name in Run(h, delay).state.pending ==> Queued(Run(h, delay).state.timers, name)
  {
    if h.After? && name in Run(h, delay).state.pending {
      NothingElseKept(h.before, delay, name);
      var s := Run(h.before, delay).state;
      match h.event {
        case Arrive(_, now) => QueuedInsert(s.timers, TimerEntry(Name(PREFIX, s.counter), now + delay), name);
        case Fire(now) =>
          HandledAreGone(s.pending, s.timers, Due(s.timers, now), name);
          QueuedLater(s.timers, Due(s.timers, now), name);
      }
    }
  }

  lemma QueuedInsert(ts: seq<TimerEntry>, e: TimerEntry, name: Bytes)
    requires Queued(ts, name) || e.name == name
    ensures Queued(Insert(ts, e), name)
  {
    var d := Due(ts, e.fireAt);
    if e.name == name {
      assert Insert(ts, e)[d].name == name;
    } else {
      var i: nat :| i < |ts| && ts[i].name == name;
      assert Insert(ts, e)[if i < d then i else i + 1].name == name;
    }
  }

  lemma QueuedLater(ts: seq<TimerEntry>, n: nat, name: Bytes)
    requires n <= |ts| && Queued(ts, name) && forall i: nat :: i < n ==> ts[i].name != name
    ensures Queued(ts[n..], name)
  {
    var i: nat :| i < |ts| && ts[i].name == name;
    assert ts[n..][i - n].name == name;
  }

  /** Firing the timers leaves no message waiting whose delay has passed. */
  lemma NothingOverdue(h: History, delay: int)
    requires Monotone(h) && h.After? && h.event.Fire?
    ensures forall i: nat :: i < |Arrivals(h)| ==> (i < |Run(h, delay).emitted| <==>
          Arrivals(h)[i].at + delay <= h.event.now)
  {
    EmittedInTurn(h, delay);
    ArrivalsOrdered(h);
    ServedWereRipe(h, delay);
    var arr, n := Arrivals(h), Served(h, delay);
    forall i: nat | n <= i < |arr| ensures arr[i].at + delay > h.event.now {
      assert arr[n].at <= arr[i].at;
    }
  }

  lemma {:induction false} ServedWereRipe(h: History, delay: int)
    requires Monotone(h)
    ensures h.After? ==> forall i: nat :: i < Served(h, delay) ==> Arrivals(h)[i].at + delay <= h.event.now
  {
    if h.Start? {
    } else {
      ServedWereRipe(h.before, delay);
    }
  }
}
