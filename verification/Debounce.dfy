/** DebounceOperator (internal/engine/hysteresis.go): a message is emitted when its window ends quietly. */
module Debounce {
  import opened Messages
  import opened Codecs
  import opened Timers
  import opened Schedules

  /** "debounce-" */
  const PREFIX: Bytes := [100, 101, 98, 111, 117, 110, 99, 101, 45]

  datatype Entry = Entry(msg: DataMessage, timerName: Bytes)

  type Pending = map<string, Entry>

  datatype State = State(pending: Pending, counter: nat, timers: seq<TimerEntry>)

  ghost function OnArrive(s: State, window: int, msg: DataMessage, now: Time): State {
    var name := Name(PREFIX, s.counter);
    State(s.pending[msg.key := Entry(msg, name)], s.counter + 1, Insert(s.timers, TimerEntry(name, now + window)))
  }

  /** A key whose current timer has this name. */
  ghost function Find(pending: Pending, name: Bytes): (r: Option<string>)
    ensures r.Some? ==> r.value in pending && pending[r.value].timerName == name
    ensures r.None? ==> forall k :: k in pending ==> pending[k].timerName != name
  {
    if exists k :: k in pending && pending[k].timerName == name then
      var k :| k in pending && pending[k].timerName == name;
      Some(k)
    else None
  }

  datatype Handling = Handling(pending: Pending, out: seq<DataMessage>)

  ghost function OnTimer(a: Handling, name: Bytes): Handling {
    match Find(a.pending, name)
    case None => a
    case Some(k) => Handling(a.pending - {k}, a.out + [a.pending[k].msg])
  }

  ghost function OnTimers(pending: Pending, ts: seq<TimerEntry>, n: nat): Handling
    requires n <= |ts|
  {
    if n == 0 then Handling(pending, []) else OnTimer(OnTimers(pending, ts, n - 1), ts[n - 1].name)
  }

  ghost function OnFire(s: State, now: Time): State {
    var n := Due(s.timers, now);
    State(OnTimers(s.pending, s.timers, n).pending, s.counter, s.timers[n..])
  }

  ghost function Fired(s: State, now: Time): seq<DataMessage> {
    OnTimers(s.pending, s.timers, Due(s.timers, now)).out
  }

  /** No two keys wait for timers of the same name: the search has at most one answer. */
  ghost predicate Distinct(pending: Pending) {
    forall j, k :: j in pending && k in pending && pending[j].timerName == pending[k].timerName ==> j == k
  }

  class DebounceOperator {
    const window: int
    var pending: Pending
    var counter: nat

    constructor (window: int)
      ensures this.window == window && pending == map[] && counter == 0
    {
      this.window := window;
      pending, counter := map[], 0;
    }

    ghost function Now(tmr: TimerManager): State
      reads this, tmr
    {
      State(pending, counter, tmr.timers)
    }

    method ProcessMessage(msg: DataMessage, now: Time, tmr: TimerManager)
      requires Sorted(tmr.timers)
      modifies this, tmr
      ensures Now(tmr) == OnArrive(old(Now(tmr)), window, msg, now) && Sorted(tmr.timers)
    {
      counter := counter + 1;
      var name := PREFIX + Decimal(counter);
      pending := pending[msg.key := Entry(msg, name)];
      tmr.Register(name, now + window);
    }

    /** Searches the entries in whatever order the map enumerates them; `hit` is where it stops. */
    method HandleTimer(name: Bytes) returns (out: seq<DataMessage>, ghost hit: Option<string>)
      modifies this
      ensures counter == old(counter)
      ensures hit.None? ==> out == [] && pending == old(pending) && forall k :: k in pending ==>
            pending[k].timerName != name
      ensures hit.Some? ==> hit.value in old(pending) && old(pending)[hit.value].timerName == name
      ensures hit.Some? ==> pending == old(pending) - {hit.value} && out == [old(pending)[hit.value].msg]
      ensures Distinct(old(pending)) ==> hit == Find(old(pending), name)
    {
      var todo := pending.Keys;
      while todo != {}
        invariant todo <= pending.Keys && pending == old(pending) && counter == old(counter)
        invariant forall k :: k in pending && k !in todo ==> pending[k].timerName != name
        decreases todo
      {
        var key :| key in todo;
        if pending[key].timerName == name {
          out, hit := [pending[key].msg], Some(key);
          pending := pending - {key};
          return;
        }
        todo := todo - {key};
      }
      out, hit := [], None;
    }

    /** The runtime's fireExpiredTimers on this operator. */
    method FireExpired(now: Time, tmr: TimerManager) returns (out: seq<DataMessage>)
      requires Sorted(tmr.timers) && Distinct(pending)
      modifies this, tmr
      ensures Now(tmr) == OnFire(old(Now(tmr)), now) && out == Fired(old(Now(tmr)), now)
      ensures Sorted(tmr.timers) && Distinct(pending)
    {
      var expired := tmr.PopExpired(now);
      out := [];
      for i := 0 to |expired|
        invariant Handling(pending, out) == OnTimers(old(pending), old(tmr.timers), i)
        invariant counter == old(counter) && tmr.timers == old(tmr.timers)[|expired|..]
        invariant Distinct(pending)
      {
        ghost var before := Handling(pending, out);
        var emitted, hit := HandleTimer(expired[i].name);
        out := out + emitted;
        assert Handling(pending, out) == OnTimer(before, expired[i].name);
      }
    }
  }

  // ---------------------------------------------------------------- the history the operator stands for

  /** A later message for the same key has arrived. */
  ghost predicate Superseded(arr: seq<Arrival>, k: nat)
    requires k < |arr|
  {
    exists j :: k < j < |arr| && arr[j].msg.key == arr[k].msg.key
  }

  /** Those from `lo` up to `hi` that no later arrival supersedes. */
  ghost function Survivors(arr: seq<Arrival>, lo: nat, hi: nat): seq<nat>
    requires lo <= hi <= |arr|
    decreases hi
  {
    if lo == hi then []
    else if Superseded(arr, hi - 1) then Survivors(arr, lo, hi - 1)
    else Survivors(arr, lo, hi - 1) + [hi - 1]
  }

  /** The arrivals that are emitted, as numbers: when the timers of some are handled, those among them
      that nothing has superseded so far. */
  ghost function Picked(h: History, window: int): seq<nat> {
    match h
    case Start => []
    case After(before, Arrive(_, _)) => Picked(before, window)
    case After(before, Fire(_)) => Picked(before, window) + Survivors(Arrivals(before), Served(before, window),
          Served(h, window))
  }

  /** The timer of arrival `k` has been handled, and by then no later message for its key had come. */
  ghost predicate Quiet(h: History, window: int, k: nat) {
    && h.After? && k < Served(h, window)
    && if k < Served(h.before, window) then Quiet(h.before, window, k) else !Superseded(Arrivals(h), k)
  }

  lemma {:induction false} SurvivorsMeaning(arr: seq<Arrival>, lo: nat, hi: nat)
    requires lo <= hi <= |arr|
    ensures forall k: nat :: k in Survivors(arr, lo, hi) <==> lo <= k < hi && !Superseded(arr, k)
    ensures forall i, j :: 0 <= i < j < |Survivors(arr, lo, hi)| ==>
          Survivors(arr, lo, hi)[i] < Survivors(arr, lo, hi)[j]
    decreases hi
  {
    if lo == hi {
    } else {
      SurvivorsMeaning(arr, lo, hi - 1);
      var s := Survivors(arr, lo, hi - 1);
      assert forall i :: 0 <= i < |s| ==> s[i] in s;
    }
  }

  /** In order of arrival, each at most once, and a message is among them if and only if no later message
      for its key was processed before its timer was handled. */
  lemma {:induction false} PickedIffQuiet(h: History, window: int)
    ensures forall k: nat :: k in Picked(h, window) <==> Quiet(h, window, k)
    ensures forall i, j :: 0 <= i < j < |Picked(h, window)| ==> Picked(h, window)[i] < Picked(h, window)[j]
  {
    if h.Start? {
    } else {
      PickedIffQuiet(h.before, window);
      if h.event.Fire? {
        var p, arr := Picked(h.before, window), Arrivals(h);
        SurvivorsMeaning(arr, Served(h.before, window), Served(h, window));
        var more := Survivors(arr, Served(h.before, window), Served(h, window));
        assert forall i :: 0 <= i < |p| ==> p[i] in p;
        assert forall i :: 0 <= i < |more| ==> more[i] in more;
      }
    }
  }

  // ---------------------------------------------------------------- runs

  datatype Running = Running(state: State, emitted: seq<Emission>)

  ghost function Run(h: History, window: int): Running {
    match h
    case Start => Running(State(map[], 0, []), [])
    case After(before, Arrive(msg, now)) =>
      var r := Run(before, window);
      Running(OnArrive(r.state, window, msg, now), r.emitted)
    case After(before, Fire(now)) =>
      var r := Run(before, window);
      Running(OnFire(r.state, now), r.emitted + Stamp(Fired(r.state, now), now))
  }

  /** The last arrival with this key, or -1. */
  function LastOf(arr: seq<Arrival>, key: string): (k: int)
    ensures -1 <= k < |arr|
    ensures k >= 0 ==> arr[k].msg.key == key
    ensures forall j :: k < j < |arr| ==> arr[j].msg.key != key
  {
    if arr == [] then -1
    else if arr[|arr| - 1].msg.key == key then |arr| - 1
    else LastOf(arr[..|arr| - 1], key)
  }

  lemma LastOfSnoc(arr: seq<Arrival>, a: Arrival, key: string)
    ensures LastOf(arr + [a], key) == if a.msg.key == key then |arr| else LastOf(arr, key)
  {
    assert (arr + [a])[..|arr|] == arr;
  }

  lemma SupersededMeaning(arr: seq<Arrival>, k: nat)
    requires k < |arr|
    ensures Superseded(arr, k) <==> LastOf(arr, arr[k].msg.key) != k
  {
  }

  /** The key waits if and only if its last arrival's timer has not been handled, and waits with that. */
  ghost predicate HoldsKey(pending: Pending, arr: seq<Arrival>, lo: nat, x: string) {
    && (x in pending <==> LastOf(arr, x) >= lo)
    && (x in pending ==> pending[x] == EntryOf(arr, x))
  }

  ghost predicate Holds(pending: Pending, arr: seq<Arrival>, lo: nat) {
    forall x :: HoldsKey(pending, arr, lo, x)
  }

  ghost function EntryOf(arr: seq<Arrival>, x: string): Entry {
    var k := LastOf(arr, x);
    if k < 0 then Entry(DataMessage(x, "", 0), []) else Entry(arr[k].msg, Name(PREFIX, k))
  }

  lemma HoldsArrive(pending: Pending, arr: seq<Arrival>, lo: nat, a: Arrival)
    requires Holds(pending, arr, lo) && lo <= |arr|
    ensures Holds(pending[a.msg.key := Entry(a.msg, Name(PREFIX, |arr|))], arr + [a], lo)
  {
    var p, more := pending[a.msg.key := Entry(a.msg, Name(PREFIX, |arr|))], arr + [a];
    forall x ensures HoldsKey(p, more, lo, x) {
      assert HoldsKey(pending, arr, lo, x);
      LastOfSnoc(arr, a, x);
    }
  }

  /** What the search for the timer of arrival `k` finds. */
  lemma Found(pending: Pending, arr: seq<Arrival>, k: nat)
    requires Holds(pending, arr, k) && k < |arr|
    ensures Find(pending, Name(PREFIX, k)) == if Superseded(arr, k) then None else Some(arr[k].msg.key)
  {
    SupersededMeaning(arr, k);
    var r := Find(pending, Name(PREFIX, k));
    if r.Some? {
      assert HoldsKey(pending, arr, k, r.value);
      NameInjective(PREFIX, LastOf(arr, r.value), k);
    }
    assert HoldsKey(pending, arr, k, arr[k].msg.key);
  }

  lemma TimerPicks(a: Handling, arr: seq<Arrival>, k: nat)
    requires Holds(a.pending, arr, k) && k < |arr|
    ensures Holds(OnTimer(a, Name(PREFIX, k)).pending, arr, k + 1)
    ensures OnTimer(a, Name(PREFIX, k)).out == if Superseded(arr, k) then a.out else a.out + [arr[k].msg]
  {
    Found(a.pending, arr, k);
    SupersededMeaning(arr, k);
    assert HoldsKey(a.pending, arr, k, arr[k].msg.key);
    var p, next := OnTimer(a, Name(PREFIX, k)).pending, k + 1;
    forall x ensures HoldsKey(p, arr, next, x) {
      assert HoldsKey(a.pending, arr, k, x);
    }
  }

  function Msgs(arr: seq<Arrival>, ks: seq<nat>): (out: seq<DataMessage>)
    requires forall i :: 0 <= i < |ks| ==> ks[i] < |arr|
    ensures |out| == |ks| && forall i :: 0 <= i < |ks| ==> out[i] == arr[ks[i]].msg
  {
    seq(|ks|, i requires 0 <= i < |ks| => arr[ks[i]].msg)
  }

  lemma {:induction false} SurvivorsInRange(arr: seq<Arrival>, lo: nat, hi: nat)
    requires lo <= hi <= |arr|
    ensures forall i :: 0 <= i < |Survivors(arr, lo, hi)| ==> lo <= Survivors(arr, lo, hi)[i] < hi
    decreases hi
  {
    if lo == hi {
    } else {
      SurvivorsInRange(arr, lo, hi - 1);
    }
  }

  ghost function SurvivorMsgs(arr: seq<Arrival>, lo: nat, hi: nat): seq<DataMessage>
    requires lo <= hi <= |arr|
  {
    SurvivorsInRange(arr, lo, hi);
    Msgs(arr, Survivors(arr, lo, hi))
  }

  lemma SurvivorMsgsNext(arr: seq<Arrival>, lo: nat, hi: nat)
    requires lo <= hi < |arr|
    ensures SurvivorMsgs(arr, lo, hi + 1) == if Superseded(arr, hi) then SurvivorMsgs(arr, lo, hi)
          else SurvivorMsgs(arr, lo, hi) + [arr[hi].msg]
  {
    SurvivorsInRange(arr, lo, hi);
    SurvivorsInRange(arr, lo, hi + 1);
  }

  lemma {:induction false} TimersPick(pending: Pending, ts: seq<TimerEntry>, arr: seq<Arrival>, lo: nat,
        window: int, n: nat)
    requires Holds(pending, arr, lo) && Line(PREFIX, ts, arr, lo, window) && n <= |ts|
    ensures Holds(OnTimers(pending, ts, n).pending, arr, lo + n)
    ensures OnTimers(pending, ts, n).out == SurvivorMsgs(arr, lo, lo + n)
  {
    if n == 0 {
    } else {
      TimersPick(pending, ts, arr, lo, window, n - 1);
      LineAt(PREFIX, ts, arr, lo, window, n - 1);
      var k, prev := lo + (n - 1), OnTimers(pending, ts, n - 1);
      assert OnTimers(pending, ts, n) == OnTimer(prev, Name(PREFIX, k));
      SurvivorMsgsNext(arr, lo, k);
      TimerPicks(prev, arr, k);
    }
  }

  ghost predicate DebounceOk(s: State, arr: seq<Arrival>, lo: nat, window: int) {
    s.counter == |arr| && Line(PREFIX, s.timers, arr, lo, window) && Holds(s.pending, arr, lo)
  }

  lemma ArriveOk(s: State, arr: seq<Arrival>, lo: nat, window: int, a: Arrival)
    requires DebounceOk(s, arr, lo, window) && Ordered(arr + [a])
    ensures DebounceOk(OnArrive(s, window, a.msg, a.at), arr + [a], lo, window)
  {
    LineInsert(PREFIX, s.timers, arr, lo, window, a);
    HoldsArrive(s.pending, arr, lo, a);
  }

  lemma FireOk(s: State, arr: seq<Arrival>, lo: nat, window: int, now: Time)
    requires DebounceOk(s, arr, lo, window)
    ensures DebounceOk(OnFire(s, now), arr, Ripe(arr, lo, window, now), window)
    ensures Fired(s, now) == SurvivorMsgs(arr, lo, Ripe(arr, lo, window, now))
  {
    var n := Due(s.timers, now);
    DueIsRipe(PREFIX, s.timers, arr, lo, window, now);
    LinePop(PREFIX, s.timers, arr, lo, window, n);
    TimersPick(s.pending, s.timers, arr, lo, window, n);
  }

  lemma {:induction false} DebounceInvariant(h: History, window: int)
    requires Monotone(h)
    ensures DebounceOk(Run(h, window).state, Arrivals(h), Served(h, window), window)
  {
    if h.Start? {
    } else {
      DebounceInvariant(h.before, window);
      ArrivalsOrdered(h);
      var s, arr, lo := Run(h.before, window).state, Arrivals(h.before), Served(h.before, window);
      match h.event {
        case Arrive(msg, now) => ArriveOk(s, arr, lo, window, Arrival(msg, now));
        case Fire(now) => FireOk(s, arr, lo, window, now);
      }
    }
  }

  /** `emitted` are these arrivals, none before its window has passed. */
  ghost predicate AreEmitted(emitted: seq<Emission>, arr: seq<Arrival>, ks: seq<nat>, window: int) {
    && |emitted| == |ks|
    && forall i :: 0 <= i < |ks| ==>
         && ks[i] < |arr| && emitted[i].msg == arr[ks[i]].msg && emitted[i].at >= arr[ks[i]].at + window
  }

  /** The operator emits exactly the picked arrivals, none before its window has passed. */
  lemma {:induction false} EmitsThePicked(h: History, window: int)
    requires Monotone(h)
    ensures AreEmitted(Run(h, window).emitted, Arrivals(h), Picked(h, window), window)
  {
    if h.Start? {
    } else {
      EmitsThePicked(h.before, window);
      var emitted, arr := Run(h.before, window).emitted, Arrivals(h.before);
      var ks, lo := Picked(h.before, window), Served(h.before, window);
      match h.event {
        case Arrive(msg, now) => ArriveEmitted(emitted, arr, Arrival(msg, now), ks, window);
        case Fire(now) =>
          FireEmits(h, window);
          FireEmitted(emitted, arr, ks, lo, window, now);
      }
    }
  }

  lemma FireEmits(h: History, window: int)
    requires Monotone(h) && h.After? && h.event.Fire?
    ensures var more := SurvivorMsgs(Arrivals(h), Served(h.before, window), Served(h, window));
            Run(h, window).emitted == Run(h.before, window).emitted + Stamp(more, h.event.now)
  {
    DebounceInvariant(h.before, window);
    FireOk(Run(h.before, window).state, Arrivals(h), Served(h.before, window), window, h.event.now);
  }

  lemma ArriveEmitted(emitted: seq<Emission>, arr: seq<Arrival>, a: Arrival, ks: seq<nat>, window: int)
    requires AreEmitted(emitted, arr, ks, window)
    ensures AreEmitted(emitted, arr + [a], ks, window)
  {
  }

  lemma FireEmitted(emitted: seq<Emission>, arr: seq<Arrival>, ks: seq<nat>, lo: nat, window: int, now: Time)
    requires AreEmitted(emitted, arr, ks, window) && lo <= |arr|
    ensures var hi := Ripe(arr, lo, window, now);
            AreEmitted(emitted + Stamp(SurvivorMsgs(arr, lo, hi), now), arr, ks + Survivors(arr, lo, hi), window)
  {
    var hi := Ripe(arr, lo, window, now);
    SurvivorsInRange(arr, lo, hi);
    MoreEmitted(emitted, arr, ks, Survivors(arr, lo, hi), window, now);
  }

  lemma MoreEmitted(emitted: seq<Emission>, arr: seq<Arrival>, ks: seq<nat>, more: seq<nat>, window: int, now: Time)
    requires AreEmitted(emitted, arr, ks, window)
    requires forall i :: 0 <= i < |more| ==> more[i] < |arr| && arr[more[i]].at + window <= now
    ensures AreEmitted(emitted + Stamp(Msgs(arr, more), now), arr, ks + more, window)
  {
  }

  /** Pending timer names are pairwise distinct and each is in the queue, so the search for a name has
      one answer at most, in whatever order the map is enumerated. */
  lemma PendingTimersQueued(h: History, window: int)
    requires Monotone(h)
    ensures Distinct(Run(h, window).state.pending)
    ensures forall x :: x in Run(h, window).state.pending ==>
              exists e :: e in Run(h, window).state.timers && e.name == Run(h, window).state.pending[x].timerName
  {
    DebounceInvariant(h, window);
    var s, arr, lo := Run(h, window).state, Arrivals(h), Served(h, window);
    NamesDistinct(s.pending, arr, lo);
    forall x | x in s.pending ensures exists e :: e in s.timers && e.name == s.pending[x].timerName {
      NameQueued(s, arr, lo, window, x);
    }
  }

  lemma NameQueued(s: State, arr: seq<Arrival>, lo: nat, window: int, x: string)
    requires DebounceOk(s, arr, lo, window) && x in s.pending
    ensures exists e :: e in s.timers && e.name == s.pending[x].timerName
  {
    assert HoldsKey(s.pending, arr, lo, x);
    var k := LastOf(arr, x);
    LineAt(PREFIX, s.timers, arr, lo, window, k - lo);
    assert s.timers[k - lo] in s.timers;
  }

  lemma NamesDistinct(pending: Pending, arr: seq<Arrival>, lo: nat)
    requires Holds(pending, arr, lo)
    ensures Distinct(pending)
  {
    forall j, k | j in pending && k in pending && pending[j].timerName == pending[k].timerName ensures j == k {
      assert HoldsKey(pending, arr, lo, j) && HoldsKey(pending, arr, lo, k);
      NameInjective(PREFIX, LastOf(arr, j), LastOf(arr, k));
    }
  }
}
