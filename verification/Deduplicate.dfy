/** DeduplicateOperator (internal/engine/hysteresis.go): forgetting expired keys cannot be noticed. */
module Deduplicate {
  import opened Messages
  import opened Codecs
  import opened Timers
  import opened Schedules

  /** "dedup-expire-" */
  const PREFIX: Bytes := [100, 101, 100, 117, 112, 45, 101, 120, 112, 105, 114, 101, 45]

  type KeyFn = Option<DataMessage -> string>

  /** The message's own key unless a key function is configured. */
  function Key(keyFn: KeyFn, msg: DataMessage): string {
    if keyFn.Some? then keyFn.value(msg) else msg.key
  }

  /** From a key to the instant at which it may be emitted again. */
  type Seen = map<string, Time>

  datatype State = State(seen: Seen, counter: nat, timers: seq<TimerEntry>)

  predicate Passes(seen: Seen, key: string, now: Time) {
    key in seen ==> seen[key] <= now
  }

  ghost function OnArrive(s: State, window: int, key: string, now: Time): State {
    if Passes(s.seen, key, now) then
      var timer := TimerEntry(Name(PREFIX, s.counter), now + window);
      State(s.seen[key := now + window], s.counter + 1, Insert(s.timers, timer))
    else s
  }

  /** Handling the first `n` of some timers, each of which drops the keys expired by its instant. */
  function OnTimers(seen: Seen, ts: seq<TimerEntry>, n: nat): Seen
    requires n <= |ts|
  {
    if n == 0 then seen else OnTimer(OnTimers(seen, ts, n - 1), ts[n - 1].fireAt)
  }

  function OnTimer(seen: Seen, fireAt: Time): Seen {
    map k | k in seen && seen[k] > fireAt :: seen[k]
  }

  ghost function OnFire(s: State, now: Time): State {
    var n := Due(s.timers, now);
    State(OnTimers(s.seen, s.timers, n), s.counter, s.timers[n..])
  }

  class DeduplicateOperator {
    const window: int
    const keyFn: KeyFn
    var seen: Seen
    var counter: nat

    constructor (window: int, keyFn: KeyFn)
      ensures this.window == window && this.keyFn == keyFn && seen == map[] && counter == 0
    {
      this.window, this.keyFn := window, keyFn;
      seen, counter := map[], 0;
    }

    ghost function Now(tmr: TimerManager): State
      reads this, tmr
    {
      State(seen, counter, tmr.timers)
    }

    method ProcessMessage(msg: DataMessage, now: Time, tmr: TimerManager) returns (out: seq<DataMessage>)
      requires Sorted(tmr.timers)
      modifies this, tmr
      ensures Now(tmr) == OnArrive(old(Now(tmr)), window, Key(keyFn, msg), now) && Sorted(tmr.timers)
      ensures out == if Passes(old(seen), Key(keyFn, msg), now) then [msg] else []
    {
      var key := Key(keyFn, msg);
      var expiry := now + window;
      if key in seen && seen[key] > now {
        return [];
      }
      seen := seen[key := expiry];
      counter := counter + 1;
      var name := PREFIX + Decimal(counter);
      tmr.Register(name, expiry);
      return [msg];
    }

    method HandleTimer(fireAt: Time)
      modifies this
      ensures counter == old(counter) && seen == OnTimer(old(seen), fireAt)
    {
      var todo := seen.Keys;
      while todo != {}
        invariant todo <= seen.Keys <= old(seen.Keys) && counter == old(counter)
        invariant forall k :: k in seen ==> seen[k] == old(seen)[k] && (k in todo || seen[k] > fireAt)
        invariant forall k :: k in old(seen) && old(seen)[k] > fireAt ==> k in seen
        decreases todo
      {
        var key :| key in todo;
        if seen[key] <= fireAt {
          seen := seen - {key};
        }
        todo := todo - {key};
      }
    }

    /** The runtime's fireExpiredTimers on this operator. */
    method FireExpired(now: Time, tmr: TimerManager)
      requires Sorted(tmr.timers)
      modifies this, tmr
      ensures Now(tmr) == OnFire(old(Now(tmr)), now) && Sorted(tmr.timers)
    {
      var expired := tmr.PopExpired(now);
      for i := 0 to |expired|
        invariant seen == OnTimers(old(seen), old(tmr.timers), i)
        invariant counter == old(counter) && tmr.timers == old(tmr.timers)[|expired|..]
      {
        HandleTimer(expired[i].fireAt);
      }
    }
  }

  // ---------------------------------------------------------------- a version that never forgets

  /** A message with this key was emitted less than a window ago. */
  ghost predicate Recent(emitted: seq<Emission>, keyFn: KeyFn, window: int, key: string, now: Time) {
    exists i :: 0 <= i < |emitted| && Key(keyFn, emitted[i].msg) == key && emitted[i].at + window > now
  }

  /** Emits a message unless one with its key was emitted less than a window ago. */
  ghost function Reference(h: History, window: int, keyFn: KeyFn): seq<Emission> {
    match h
    case Start => []
    case After(before, Arrive(msg, now)) =>
      var emitted := Reference(before, window, keyFn);
      if Recent(emitted, keyFn, window, Key(keyFn, msg), now) then emitted else emitted + [Emission(msg, now)]
    case After(before, Fire(_)) => Reference(before, window, keyFn)
  }

  lemma {:induction false} ReferenceSpaced(h: History, window: int, keyFn: KeyFn, i: nat, j: nat)
    requires i < j < |Reference(h, window, keyFn)|
    requires Key(keyFn, Reference(h, window, keyFn)[i].msg) == Key(keyFn, Reference(h, window, keyFn)[j].msg)
    ensures Reference(h, window, keyFn)[i].at + window <= Reference(h, window, keyFn)[j].at
  {
    if j < |Reference(h.before, window, keyFn)| {
      ReferenceSpaced(h.before, window, keyFn, i, j);
    }
  }

  // ---------------------------------------------------------------- runs

  datatype Running = Running(state: State, emitted: seq<Emission>)

  ghost function Next(r: Running, event: Event, window: int, keyFn: KeyFn): Running {
    match event
    case Arrive(msg, now) =>
      var key := Key(keyFn, msg);
      Running(OnArrive(r.state, window, key, now), if Passes(r.state.seen, key, now) then
            r.emitted + [Emission(msg, now)] else r.emitted)
    case Fire(now) => Running(OnFire(r.state, now), r.emitted)
  }

  ghost function Run(h: History, window: int, keyFn: KeyFn): Running {
    if h.Start? then Running(State(map[], 0, []), []) else Next(Run(h.before, window, keyFn), h.event, window, keyFn)
  }

  /** Some emission of the key expires at this instant. */
  ghost predicate Source(emitted: seq<Emission>, window: int, keyFn: KeyFn, key: string, expiry: Time) {
    exists i: nat :: i < |emitted| && Key(keyFn, emitted[i].msg) == key && emitted[i].at + window == expiry
  }

  /** A remembered key comes from an emission. */
  ghost predicate Backed(seen: Seen, emitted: seq<Emission>, window: int, keyFn: KeyFn) {
    forall k :: k in seen ==> Source(emitted, window, keyFn, k, seen[k])
  }

  /** An emission that has not expired by `now` is remembered. */
  ghost predicate Remembered(seen: Seen, emitted: seq<Emission>, window: int, keyFn: KeyFn, now: Time) {
    forall i: nat :: i < |emitted| && emitted[i].at + window > now ==>
      Key(keyFn, emitted[i].msg) in seen && seen[Key(keyFn, emitted[i].msg)] >= emitted[i].at + window
  }

  /** A remembered key has a timer that will drop it. */
  ghost predicate Timed(seen: Seen, ts: seq<TimerEntry>) {
    forall k :: k in seen ==> HasTimer(ts, seen[k])
  }

  ghost predicate HasTimer(ts: seq<TimerEntry>, t: Time) {
    exists j: nat :: j < |ts| && ts[j].fireAt == t
  }

  lemma BackedArrive(seen: Seen, emitted: seq<Emission>, window: int, keyFn: KeyFn, msg: DataMessage, now: Time)
    requires Backed(seen, emitted, window, keyFn)
    ensures Backed(seen[Key(keyFn, msg) := now + window], emitted + [Emission(msg, now)], window, keyFn)
  {
    var more, s := emitted + [Emission(msg, now)], seen[Key(keyFn, msg) := now + window];
    forall k | k in s ensures Source(more, window, keyFn, k, s[k]) {
      if k == Key(keyFn, msg) {
        assert more[|emitted|] == Emission(msg, now);
      } else {
        var i: nat :| i < |emitted| && Key(keyFn, emitted[i].msg) == k && emitted[i].at + window == seen[k];
        assert more[i] == emitted[i];
      }
    }
  }

  lemma RememberedArrive(seen: Seen, emitted: seq<Emission>, window: int, keyFn: KeyFn, msg: DataMessage, now: Time)
    requires Remembered(seen, emitted, window, keyFn, now) && Passes(seen, Key(keyFn, msg), now)
    ensures Remembered(seen[Key(keyFn, msg) := now + window], emitted + [Emission(msg, now)], window, keyFn, now)
  {
  }

  lemma TimedArrive(seen: Seen, ts: seq<TimerEntry>, key: string, name: Bytes, expiry: Time)
    requires Timed(seen, ts)
    ensures Timed(seen[key := expiry], Insert(ts, TimerEntry(name, expiry)))
  {
    var more, s := Insert(ts, TimerEntry(name, expiry)), seen[key := expiry];
    var d := Due(ts, expiry);
    forall k | k in s ensures HasTimer(more, s[k]) {
      if k == key {
        assert more[d].fireAt == expiry;
      } else {
        var j: nat :| j < |ts| && ts[j].fireAt == seen[k];
        assert more[if j < d then j else j + 1] == ts[j];
      }
    }
  }

  /** A key survives the timers if and only if it expires after each of them. */
  lemma {:induction false} Kept(seen: Seen, ts: seq<TimerEntry>, n: nat, k: string)
    requires n <= |ts|
    ensures k in OnTimers(seen, ts, n) <==> k in seen && forall j: nat :: j < n ==> seen[k] > ts[j].fireAt
    ensures k in OnTimers(seen, ts, n) ==> OnTimers(seen, ts, n)[k] == seen[k]
  {
    if n == 0 {
    } else {
      Kept(seen, ts, n - 1, k);
    }
  }

  /** The timer of an expired key is among the expired ones. */
  lemma TimerIsDue(ts: seq<TimerEntry>, now: Time, j: nat)
    requires Sorted(ts) && j < |ts|
    ensures ts[j].fireAt <= now <==> j < Due(ts, now)
  {
    var n := Due(ts, now);
    if n <= j {
      assert ts[n].fireAt <= ts[j].fireAt;
    }
  }

  lemma TimersDrop(seen: Seen, ts: seq<TimerEntry>, now: Time, k: string)
    requires Sorted(ts) && Timed(seen, ts) && k in seen
    ensures k in OnTimers(seen, ts, Due(ts, now)) <==> seen[k] > now
  {
    Kept(seen, ts, Due(ts, now), k);
    assert HasTimer(ts, seen[k]);
    var j: nat :| j < |ts| && ts[j].fireAt == seen[k];
    TimerIsDue(ts, now, j);
  }

  /** Firing the timers at `now` forgets exactly what has expired by then. */
  lemma FireForgets(seen: Seen, ts: seq<TimerEntry>, now: Time)
    requires Sorted(ts) && Timed(seen, ts)
    ensures OnTimers(seen, ts, Due(ts, now)) == map k | k in seen && seen[k] > now :: seen[k]
  {
    var r := OnTimers(seen, ts, Due(ts, now));
    forall k ensures k in r <==> k in seen && seen[k] > now {
      Kept(seen, ts, Due(ts, now), k);
      if k in seen {
        TimersDrop(seen, ts, now, k);
      }
    }
    forall k | k in r ensures r[k] == seen[k] {
      Kept(seen, ts, Due(ts, now), k);
    }
  }

  lemma TimedFire(seen: Seen, ts: seq<TimerEntry>, now: Time)
    requires Sorted(ts) && Timed(seen, ts)
    ensures Sorted(ts[Due(ts, now)..]) && Timed(OnTimers(seen, ts, Due(ts, now)), ts[Due(ts, now)..])
  {
    FireForgets(seen, ts, now);
    var n := Due(ts, now);
    forall k | k in seen && seen[k] > now ensures HasTimer(ts[n..], seen[k]) {
      var j: nat :| j < |ts| && ts[j].fireAt == seen[k];
      assert ts[n..][j - n].fireAt == seen[k];
    }
  }

  ghost predicate DedupOk(r: Running, window: int, keyFn: KeyFn, now: Time) {
    && Sorted(r.state.timers) && Timed(r.state.seen, r.state.timers)
    && Backed(r.state.seen, r.emitted, window, keyFn) && Remembered(r.state.seen, r.emitted, window, keyFn, now)
  }

  lemma ArriveOk(r: Running, window: int, keyFn: KeyFn, msg: DataMessage, now: Time)
    requires DedupOk(r, window, keyFn, now)
    ensures DedupOk(Next(r, Arrive(msg, now), window, keyFn), window, keyFn, now)
  {
    var s, key, more := r.state, Key(keyFn, msg), r.emitted + [Emission(msg, now)];
    if Passes(s.seen, key, now) {
      InsertSorted(s.timers, TimerEntry(Name(PREFIX, s.counter), now + window));
      TimedArrive(s.seen, s.timers, key, Name(PREFIX, s.counter), now + window);
      assert Backed(s.seen[key := now + window], more, window, keyFn) by {
        BackedArrive(s.seen, r.emitted, window, keyFn, msg, now);
      }
      assert Remembered(s.seen[key := now + window], more, window, keyFn, now) by {
        RememberedArrive(s.seen, r.emitted, window, keyFn, msg, now);
      }
    }
  }

  lemma FireOk(r: Running, window: int, keyFn: KeyFn, now: Time)
    requires DedupOk(r, window, keyFn, now)
    ensures DedupOk(Next(r, Fire(now), window, keyFn), window, keyFn, now)
  {
    var s := r.state;
    TimedFire(s.seen, s.timers, now);
    FireForgets(s.seen, s.timers, now);
    ForgetOk(s.seen, OnTimers(s.seen, s.timers, Due(s.timers, now)), r.emitted, window, keyFn, now);
  }

  lemma ForgetOk(seen: Seen, seen': Seen, emitted: seq<Emission>, window: int, keyFn: KeyFn, now: Time)
    requires Backed(seen, emitted, window, keyFn) && Remembered(seen, emitted, window, keyFn, now)
    requires seen' == map k | k in seen && seen[k] > now :: seen[k]
    ensures Backed(seen', emitted, window, keyFn) && Remembered(seen', emitted, window, keyFn, now)
  {
  }

  lemma LaterOk(r: Running, window: int, keyFn: KeyFn, clock: Time, now: Time)
    requires DedupOk(r, window, keyFn, clock) && clock <= now
    ensures DedupOk(r, window, keyFn, now)
  {
  }

  lemma PassesIffNotRecent(r: Running, window: int, keyFn: KeyFn, key: string, now: Time)
    requires DedupOk(r, window, keyFn, now)
    ensures Passes(r.state.seen, key, now) <==> !Recent(r.emitted, keyFn, window, key, now)
  {
  }

  /** Every state of a run at or before `now`. */
  lemma {:induction false} DedupInvariant(h: History, window: int, keyFn: KeyFn, now: Time)
    requires Monotone(h) && (h.After? ==> h.event.now <= now)
    ensures DedupOk(Run(h, window, keyFn), window, keyFn, now)
  {
    if h.Start? {
    } else {
      var clock, r := h.event.now, Run(h.before, window, keyFn);
      DedupInvariant(h.before, window, keyFn, clock);
      match h.event {
        case Arrive(msg, t) => ArriveOk(r, window, keyFn, msg, t);
        case Fire(t) => FireOk(r, window, keyFn, t);
      }
      LaterOk(Run(h, window, keyFn), window, keyFn, clock, now);
    }
  }

  /** Under a monotone clock the operator emits exactly what the version that never forgets emits. */
  lemma {:induction false} ForgettingIsInvisible(h: History, window: int, keyFn: KeyFn)
    requires Monotone(h)
    ensures Run(h, window, keyFn).emitted == Reference(h, window, keyFn)
  {
    if h.Start? {
    } else {
      ForgettingIsInvisible(h.before, window, keyFn);
      if h.event.Arrive? {
        DedupInvariant(h.before, window, keyFn, h.event.now);
        PassesIffNotRecent(Run(h.before, window, keyFn), window, keyFn, Key(keyFn, h.event.msg), h.event.now);
      }
    }
  }

  /** Under a monotone clock two emissions of a key are at least a window apart. */
  lemma Spacing(h: History, window: int, keyFn: KeyFn, i: nat, j: nat)
    requires Monotone(h) && i < j < |Run(h, window, keyFn).emitted|
    requires Key(keyFn, Run(h, window, keyFn).emitted[i].msg) == Key(keyFn, Run(h, window, keyFn).emitted[j].msg)
    ensures Run(h, window, keyFn).emitted[i].at + window <= Run(h, window, keyFn).emitted[j].at
  {
    ForgettingIsInvisible(h, window, keyFn);
    ReferenceSpaced(h, window, keyFn, i, j);
  }

  /** After the timers were fired at `now`, every remembered key expires after `now`. */
  lemma NothingStale(h: History, window: int, keyFn: KeyFn, key: string)
    requires Monotone(h) && h.After? && h.event.Fire? && key in Run(h, window, keyFn).state.seen
    ensures Run(h, window, keyFn).state.seen[key] > h.event.now
  {
    DedupInvariant(h.before, window, keyFn, h.event.now);
    var s := Run(h.before, window, keyFn).state;
    FireForgets(s.seen, s.timers, h.event.now);
  }

  // ---------------------------------------------------------------- timers

  /** Some emission of the run set this timer, under its own number. */
  ghost predicate SetBy(e: TimerEntry, emitted: seq<Emission>, window: int) {
    exists k: nat :: k < |emitted| && e == TimerEntry(Name(PREFIX, k), emitted[k].at + window)
  }

  ghost predicate AllSet(ts: seq<TimerEntry>, emitted: seq<Emission>, window: int) {
    forall e :: e in ts ==> SetBy(e, emitted, window)
  }

  lemma SetArrive(ts: seq<TimerEntry>, emitted: seq<Emission>, window: int, msg: DataMessage, now: Time)
    requires AllSet(ts, emitted, window)
    ensures var timer := TimerEntry(Name(PREFIX, |emitted|), now + window);
            AllSet(Insert(ts, timer), emitted + [Emission(msg, now)], window)
  {
    var timer, more := TimerEntry(Name(PREFIX, |emitted|), now + window), emitted + [Emission(msg, now)];
    forall e | e in Insert(ts, timer) ensures SetBy(e, more, window) {
      if e == timer {
        assert more[|emitted|] == Emission(msg, now);
      } else {
        assert e in ts && SetBy(e, emitted, window);
        var k: nat :| k < |emitted| && e == TimerEntry(Name(PREFIX, k), emitted[k].at + window);
        assert more[k] == emitted[k];
      }
    }
  }

  /** Each emission counts one and sets one timer, whose name is the emission's number and no other's. */
  lemma {:induction false} TimersOfEmissions(h: History, window: int, keyFn: KeyFn)
    ensures Run(h, window, keyFn).state.counter == |Run(h, window, keyFn).emitted|
    ensures AllSet(Run(h, window, keyFn).state.timers, Run(h, window, keyFn).emitted, window)
  {
    if h.Start? {
    } else {
      TimersOfEmissions(h.before, window, keyFn);
      var r := Run(h.before, window, keyFn);
      if h.event.Arrive? {
        SetArrive(r.state.timers, r.emitted, window, h.event.msg, h.event.now);
      }
    }
  }

  // ---------------------------------------------------------------- by what messages are told apart

  /** A message with the same key was emitted less than a window before `now`. */
  ghost predicate RecentKey(emitted: seq<Emission>, window: int, key: string, now: Time) {
    exists i :: 0 <= i < |emitted| && emitted[i].msg.key == key && emitted[i].at + window > now
  }

  /** A message to which `f` gives the same key was emitted less than a window before `now`. */
  ghost predicate RecentBy(emitted: seq<Emission>, f: DataMessage -> string, window: int, key: string, now: Time) {
    exists i :: 0 <= i < |emitted| && f(emitted[i].msg) == key && emitted[i].at + window > now
  }

  /** Without a key function, a message is dropped if and only if one with its key was emitted less than a
      window ago. */
  lemma DropsByMessageKey(before: History, msg: DataMessage, now: Time, window: int)
    requires Monotone(After(before, Arrive(msg, now)))
    ensures var emitted := Run(before, window, None).emitted;
            Run(After(before, Arrive(msg, now)), window, None).emitted ==
            if RecentKey(emitted, window, msg.key, now) then emitted else emitted + [Emission(msg, now)]
  {
    var emitted := Run(before, window, None).emitted;
    DedupInvariant(before, window, None, now);
    PassesIffNotRecent(Run(before, window, None), window, None, msg.key, now);
    if RecentKey(emitted, window, msg.key, now) {
      var i :| 0 <= i < |emitted| && emitted[i].msg.key == msg.key && emitted[i].at + window > now;
      assert Recent(emitted, None, window, msg.key, now);
    }
  }

  /** With one, by the keys it gives. */
  lemma DropsByKeyFunction(before: History, msg: DataMessage, now: Time, window: int, f: DataMessage -> string)
    requires Monotone(After(before, Arrive(msg, now)))
    ensures var emitted := Run(before, window, Some(f)).emitted;
            Run(After(before, Arrive(msg, now)), window, Some(f)).emitted ==
            if RecentBy(emitted, f, window, f(msg), now) then emitted else emitted + [Emission(msg, now)]
  {
    var emitted := Run(before, window, Some(f)).emitted;
    DedupInvariant(before, window, Some(f), now);
    PassesIffNotRecent(Run(before, window, Some(f)), window, Some(f), f(msg), now);
    if RecentBy(emitted, f, window, f(msg), now) {
      var i :| 0 <= i < |emitted| && f(emitted[i].msg) == f(msg) && emitted[i].at + window > now;
      assert Recent(emitted, Some(f), window, f(msg), now);
    }
  }

  /** Emitted messages with one key are a window apart, whichever way keys are told. */
  lemma KeysAreSpaced(h: History, window: int, keyFn: KeyFn, i: nat, j: nat)
    requires Monotone(h) && i < j < |Run(h, window, keyFn).emitted|
    requires var a, b := Run(h, window, keyFn).emitted[i].msg, Run(h, window, keyFn).emitted[j].msg;
             match keyFn case None => a.key == b.key case Some(f) => f(a) == f(b)
    ensures Run(h, window, keyFn).emitted[i].at + window <= Run(h, window, keyFn).emitted[j].at
  {
    Spacing(h, window, keyFn, i, j);
  }
}
