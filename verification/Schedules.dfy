/** What an operator with timers lives through: messages arrive, and now and then the runtime fires the
    timers that have expired (internal/engine/runtime.go, internal/engine/timer.go). */
module Schedules {
  import opened Messages
  import opened Codecs
  import opened Timers

  // ---------------------------------------------------------------- timer names

  /** fmt's %d. */
  function Decimal(n: nat): Bytes {
    if n < 10 then [48 + n] else Decimal(n / 10) + [48 + n % 10]
  }

  lemma {:induction false} DecimalInjective(m: nat, n: nat)
    requires Decimal(m) == Decimal(n)
    ensures m == n
  {
    var a, b := Decimal(m), Decimal(n);
    assert a[|a| - 1] == 48 + m % 10 && b[|b| - 1] == 48 + n % 10;
    DecimalLength(m);
    DecimalLength(n);
    if m >= 10 && n >= 10 {
      assert a[..|a| - 1] == Decimal(m / 10) && b[..|b| - 1] == Decimal(n / 10);
      DecimalInjective(m / 10, n / 10);
    }
  }

  lemma DecimalLength(n: nat)
    ensures |Decimal(n)| >= 1 && (|Decimal(n)| == 1 <==> n < 10)
  {
    if n >= 10 {
      DecimalLength(n / 10);
    }
  }

  /** The name an operator gives a timer when it has counted `n` before. */
  ghost function Name(prefix: Bytes, n: nat): Bytes {
    prefix + Decimal(n + 1)
  }

  lemma NameInjective(prefix: Bytes, m: nat, n: nat)
    ensures Name(prefix, m) == Name(prefix, n) <==> m == n
  {
    if Name(prefix, m) == Name(prefix, n) {
      assert Decimal(m + 1) == Name(prefix, m)[|prefix|..] == Decimal(n + 1);
      DecimalInjective(m + 1, n + 1);
    }
  }

  // ---------------------------------------------------------------- histories

  datatype Event = Arrive(msg: DataMessage, now: Time) | Fire(now: Time)

  datatype History = Start | After(before: History, event: Event)

  /** The clock never goes backwards. */
  predicate Monotone(h: History) {
    h.After? ==> Monotone(h.before) && (h.before.After? ==> h.before.event.now <= h.event.now)
  }

  datatype Arrival = Arrival(msg: DataMessage, at: Time)

  function Arrivals(h: History): seq<Arrival> {
    match h
    case Start => []
    case After(before, Arrive(msg, now)) => Arrivals(before) + [Arrival(msg, now)]
    case After(before, Fire(_)) => Arrivals(before)
  }

  ghost predicate Ordered(arr: seq<Arrival>) {
    forall i, j :: 0 <= i < j < |arr| ==> arr[i].at <= arr[j].at
  }

  lemma {:induction false} ArrivalsOrdered(h: History)
    requires Monotone(h)
    ensures Ordered(Arrivals(h))
    ensures h.After? ==> forall i :: 0 <= i < |Arrivals(h)| ==> Arrivals(h)[i].at <= h.event.now
  {
    if h.Start? {
    } else {
      ArrivalsOrdered(h.before);
    }
  }

  // ---------------------------------------------------------------- a fixed delay makes the queue a line

  /** How many arrivals from `lo` on have waited for `delay` by `now`, added to `lo`. */
  function Ripe(arr: seq<Arrival>, lo: nat, delay: int, now: Time): (hi: nat)
    requires lo <= |arr|
    ensures lo <= hi <= |arr|
    ensures forall i :: lo <= i < hi ==> arr[i].at + delay <= now
    ensures hi < |arr| ==> arr[hi].at + delay > now
    decreases |arr| - lo
  {
    if lo < |arr| && arr[lo].at + delay <= now then Ripe(arr, lo + 1, delay, now) else lo
  }

  /** How many arrivals have been served: those that were ripe when timers were last fired. */
  function Served(h: History, delay: int): (n: nat)
    ensures n <= |Arrivals(h)|
  {
    match h
    case Start => 0
    case After(before, Arrive(_, _)) => Served(before, delay)
    case After(before, Fire(now)) => Ripe(Arrivals(before), Served(before, delay), delay, now)
  }

  /** The queue holds one timer for each arrival from `lo` on, in order of arrival. */
  ghost predicate Line(prefix: Bytes, ts: seq<TimerEntry>, arr: seq<Arrival>, lo: nat, delay: int) {
    && lo <= |arr| && |ts| == |arr| - lo
    && forall i: nat :: i < |ts| ==> ts[i] == TimerEntry(Name(prefix, lo + i), arr[lo + i].at + delay)
  }

  lemma LineAt(prefix: Bytes, ts: seq<TimerEntry>, arr: seq<Arrival>, lo: nat, delay: int, i: nat)
    requires Line(prefix, ts, arr, lo, delay) && i < |ts|
    ensures ts[i] == TimerEntry(Name(prefix, lo + i), arr[lo + i].at + delay)
  {
  }

  /** A new timer goes to the end, also among timers of the same instant. */
  lemma LineInsert(prefix: Bytes, ts: seq<TimerEntry>, arr: seq<Arrival>, lo: nat, delay: int, a: Arrival)
    requires Line(prefix, ts, arr, lo, delay) && Ordered(arr + [a])
    ensures Line(prefix, Insert(ts, TimerEntry(Name(prefix, |arr|), a.at + delay)), arr + [a], lo, delay)
  {
    var more, e := arr + [a], TimerEntry(Name(prefix, |arr|), a.at + delay);
    forall i: nat | i < |ts| ensures ts[i].fireAt <= e.fireAt {
      assert more[lo + i].at <= more[|arr|].at;
    }
    assert Due(ts, e.fireAt) == |ts|;
    assert Insert(ts, e) == ts + [e];
  }

  lemma LinePop(prefix: Bytes, ts: seq<TimerEntry>, arr: seq<Arrival>, lo: nat, delay: int, n: nat)
    requires Line(prefix, ts, arr, lo, delay) && n <= |ts|
    ensures Line(prefix, ts[n..], arr, lo + n, delay)
  {
    var rest := ts[n..];
    forall i: nat | i < |rest| ensures rest[i] == TimerEntry(Name(prefix, lo + n + i), arr[lo + n + i].at + delay) {
      assert rest[i] == ts[n + i];
    }
  }

  /** The expired timers are those of the ripe arrivals. */
  lemma DueIsRipe(prefix: Bytes, ts: seq<TimerEntry>, arr: seq<Arrival>, lo: nat, delay: int, now: Time)
    requires Line(prefix, ts, arr, lo, delay)
    ensures lo + Due(ts, now) == Ripe(arr, lo, delay, now)
  {
    var d, hi := Due(ts, now), Ripe(arr, lo, delay, now);
    if d < |ts| {
      assert arr[lo + d].at + delay > now;
    }
    if hi < |arr| {
      assert ts[hi - lo].fireAt > now;
    }
  }

  datatype Emission = Emission(msg: DataMessage, at: Time)

  function Stamp(out: seq<DataMessage>, now: Time): (r: seq<Emission>)
    ensures |r| == |out| && forall i :: 0 <= i < |r| ==> r[i] == Emission(out[i], now)
  {
    seq(|out|, i requires 0 <= i < |out| => Emission(out[i], now))
  }
}
