/** The timer queue of a node and its checkpoint (internal/engine/timer.go, internal/engine/operator.go).
    Instants are the nanosecond counts that UnixNano gives. */
module Timers {
  import opened Collections
  import opened Messages
  import opened Codecs

  datatype TimerEntry = TimerEntry(name: Bytes, fireAt: Time)

  ghost predicate Sorted(ts: seq<TimerEntry>) {
    forall i, j :: 0 <= i < j < |ts| ==> ts[i].fireAt <= ts[j].fireAt
  }

  /** How many timers at the front fire no later than `t`. */
  function Due(ts: seq<TimerEntry>, t: Time): (n: nat)
    ensures n <= |ts|
    ensures forall i :: 0 <= i < n ==> ts[i].fireAt <= t
    ensures n < |ts| ==> ts[n].fireAt > t
  {
    if ts == [] || ts[0].fireAt > t then 0 else 1 + Due(ts[1..], t)
  }

  /** Stable insertion: after every timer that fires no later. */
  function Insert(ts: seq<TimerEntry>, e: TimerEntry): seq<TimerEntry> {
    ts[..Due(ts, e.fireAt)] + [e] + ts[Due(ts, e.fireAt)..]
  }

  lemma InsertSorted(ts: seq<TimerEntry>, e: TimerEntry)
    requires Sorted(ts)
    ensures Sorted(Insert(ts, e))
  {
    var n := Due(ts, e.fireAt);
    var r := ts[..n] + [e] + ts[n..];
    forall i, j | 0 <= i < j < |r| ensures r[i].fireAt <= r[j].fireAt {
      assert n <= i - 1 ==> ts[n].fireAt <= ts[i - 1].fireAt;
      assert n <= j - 1 ==> ts[n].fireAt <= ts[j - 1].fireAt;
    }
  }

  /** sort.Search for the first timer after `t`. On a sorted list it finds the end of the due ones. */
  method SearchAfter(ts: seq<TimerEntry>, t: Time) returns (idx: nat)
    ensures idx <= |ts|
    ensures Sorted(ts) ==> idx == Due(ts, t)
  {
    var i, j := 0, |ts|;
    while i < j
      invariant 0 <= i <= j <= |ts|
      invariant Sorted(ts) ==> forall k :: 0 <= k < i ==> ts[k].fireAt <= t
      invariant Sorted(ts) ==> forall k :: j <= k < |ts| ==> ts[k].fireAt > t
    {
      var h := (i + j) / 2;
      if ts[h].fireAt > t {
        j := h;
      } else {
        i := h + 1;
      }
    }
    idx := i;
    if Sorted(ts) {
      DueUnique(ts, t, idx);
    }
  }

  lemma DueUnique(ts: seq<TimerEntry>, t: Time, n: nat)
    requires n <= |ts|
    requires forall k :: 0 <= k < n ==> ts[k].fireAt <= t
    requires forall k :: n <= k < |ts| ==> ts[k].fireAt > t
    ensures n == Due(ts, t)
  {
    var d := Due(ts, t);
    if d < |ts| { assert ts[d].fireAt > t; }
    if n < |ts| { assert ts[n].fireAt > t; }
  }

  class TimerManager {
    var timers: seq<TimerEntry>

    constructor ()
      ensures timers == []
    {
      timers := [];
    }

    method Register(name: Bytes, fireAt: Time)
      modifies this
      ensures Sorted(old(timers)) ==> timers == Insert(old(timers), TimerEntry(name, fireAt)) && Sorted(timers)
      ensures multiset(timers) == multiset(old(timers)) + multiset{TimerEntry(name, fireAt)}
    {
      var idx := SearchAfter(timers, fireAt);
      KeepsSorted(timers, TimerEntry(name, fireAt));
      assert timers == timers[..idx] + timers[idx..];
      timers := timers[..idx] + [TimerEntry(name, fireAt)] + timers[idx..];
    }

    method PopExpired(now: Time) returns (expired: seq<TimerEntry>)
      modifies this
      ensures expired + timers == old(timers)
      ensures Sorted(old(timers)) ==>
                && expired == old(timers)[..Due(old(timers), now)] && Sorted(timers)
                && (forall i :: 0 <= i < |expired| ==> expired[i].fireAt <= now)
                && (forall i :: 0 <= i < |timers| ==> timers[i].fireAt > now)
    {
      if |timers| == 0 {
        return [];
      }
      var idx := SearchAfter(timers, now);
      if idx == 0 {
        assert timers[..0] == [];
        return [];
      }
      expired := timers[..idx];
      timers := timers[idx..];
    }

    /** The loop sleeps until this timer: there is one unless the queue is empty, none fires before it, and
        it is due exactly when PopExpired would pop something. */
    method Peek() returns (next: Option<TimerEntry>)
      ensures next.None? <==> timers == []
      ensures next.Some? ==> next.value in timers
      ensures next.Some? && Sorted(timers) ==> forall e :: e in timers ==> next.value.fireAt <= e.fireAt
      ensures next.Some? ==> forall now :: next.value.fireAt <= now <==> Due(timers, now) > 0
    {
      if |timers| == 0 { return None; }
      return Some(timers[0]);
    }

    method Snapshot() returns (buf: Bytes)
      ensures buf == EncodeTimers(timers)
    {
      if |timers| == 0 {
        return [];
      }
      buf := AppendUint32([], |timers|);
      assert [] + U32(|timers|) == U32(|timers|) + TimerRecs(timers[..0]);
      for i := 0 to |timers|
        invariant buf == U32(|timers|) + TimerRecs(timers[..i])
      {
        var t := timers[i];
        assert timers[..i + 1] == timers[..i] + [t];
        TimerRecsSnoc(timers[..i], t);
        AppendTimer(U32(|timers|), TimerRecs(timers[..i]), t);
        buf := AppendUint32(buf, |t.name|);
        buf := buf + t.name;
        buf := AppendUint64(buf, ToUnsigned(t.fireAt));
      }
      assert timers[..|timers|] == timers;
    }

    /** Replaces the timers by those in front of the first fault. Bytes after the last timer are ignored. */
    method Restore(data: Bytes) returns (ok: bool)
      modifies this
      ensures ParsedTimers(timers, ok) == DecodeTimers(data)
    {
      timers, ok := ReadTimers(data);
    }
  }

  method ReadTimers(data: Bytes) returns (ts: seq<TimerEntry>, ok: bool)
    ensures ParsedTimers(ts, ok) == DecodeTimers(data)
  {
    ts := [];
    if |data| == 0 {
      return ts, true;
    }
    if |data| < 4 {
      return ts, false;
    }
    var count := ReadU32(data);
    ghost var body := data[4..];
    var offset: nat, i: nat := 4, 0;
    while i < count
      invariant i == |ts| <= count
      invariant Begins(body, ts) && offset == 4 + |TimerRecs(ts)|
    {
      var next := ReadTimer(data, offset);
      assert data[offset..] == body[|TimerRecs(ts)|..];
      if next.None? {
        DecodingIsUnique(body, count, ParsedTimers(ts, false), DecodeTimers(data));
        return ts, false;
      }
      BeginsSnoc(body, ts, next.value);
      ts := ts + [next.value];
      offset := offset + 12 + |next.value.name|;
      i := i + 1;
    }
    DecodingIsUnique(body, count, ParsedTimers(ts, true), DecodeTimers(data));
    return ts, true;
  }

  /** A name and an instant at `offset`, or nothing if the data ends first. */
  method ReadTimer(data: Bytes, offset: nat) returns (e: Option<TimerEntry>)
    requires offset <= |data|
    ensures e == ParseTimer(data[offset..])
  {
    ScanIsParse(data[offset..]);
    var found, name, next := ReadField(data, offset);
    if !found || next + 8 > |data| {
      return None;
    }
    return Some(TimerEntry(name, ToSigned(ReadU64(data[next..]))));
  }

  lemma KeepsSorted(ts: seq<TimerEntry>, e: TimerEntry)
    ensures Sorted(ts) ==> Sorted(Insert(ts, e))
  {
    if Sorted(ts) {
      InsertSorted(ts, e);
    }
  }

  // ---------------------------------------------------------------- encoding of the timer list

  ghost function TimerRec(e: TimerEntry): (b: Bytes)
    ensures |b| == 12 + |e.name|
  {
    Field(e.name) + U64(ToUnsigned(e.fireAt))
  }

  ghost function TimerRecs(ts: seq<TimerEntry>): Bytes {
    if ts == [] then [] else TimerRec(ts[0]) + TimerRecs(ts[1..])
  }

  ghost function EncodeTimers(ts: seq<TimerEntry>): Bytes {
    if ts == [] then [] else U32(|ts|) + TimerRecs(ts)
  }

  /** The timer whose encoding starts the data, if there is one. */
  ghost function ParseTimer(data: Bytes): (r: Option<TimerEntry>)
    ensures r.Some? ==> Fits(r.value) && TimerRec(r.value) <= data
    ensures r.None? ==> forall e :: Fits(e) ==> !(TimerRec(e) <= data)
  {
    if exists e :: Fits(e) && TimerRec(e) <= data then
      var e :| Fits(e) && TimerRec(e) <= data;
      Some(e)
    else None
  }

  /** The same by reading a field and eight bytes. */
  function ScanTimer(data: Bytes): Option<TimerEntry> {
    match ParseField(data)
    case None => None
    case Some(name) =>
      var rest := data[4 + |name|..];
      if |rest| < 8 then None else Some(TimerEntry(name, ToSigned(ReadU64(rest))))
  }

  lemma ScanFinds(e: TimerEntry, data: Bytes)
    requires Fits(e) && TimerRec(e) <= data
    ensures ScanTimer(data) == Some(e)
  {
    var tail := data[12 + |e.name|..];
    assert data == TimerRec(e) + tail;
    var ns := U64(ToUnsigned(e.fireAt));
    assert ParseField(data) == Some(e.name) by {
      Assoc(Field(e.name), ns, tail);
      FieldRoundTrip(e.name, ns + tail);
    }
    assert data[4 + |e.name|..] == ns + tail;
    assert ToSigned(ReadU64(ns + tail)) == e.fireAt by {
      ReadU64Prefix(ns, tail);
      SignRoundTrip(e.fireAt);
    }
  }

  lemma ScanSound(data: Bytes)
    requires ScanTimer(data).Some?
    ensures Fits(ScanTimer(data).value) && TimerRec(ScanTimer(data).value) <= data
  {
    var e := ScanTimer(data).value;
    ParseFieldSound(data);
    var rest := data[4 + |e.name|..];
    U64OfRead(rest);
    assert data == Field(e.name) + rest;
    assert rest == rest[..8] + rest[8..];
    Assoc(Field(e.name), rest[..8], rest[8..]);
  }

  lemma U64OfRead(b: Bytes)
    requires |b| >= 8
    ensures FitsInt64(ToSigned(ReadU64(b))) && U64(ToUnsigned(ToSigned(ReadU64(b)))) == b[..8]
  {
    UnsignedRoundTrip(ReadU64(b));
    ReadU64RoundTrip(b);
  }

  lemma ScanIsParse(data: Bytes)
    ensures ScanTimer(data) == ParseTimer(data)
  {
    if ScanTimer(data).Some? {
      ScanSound(data);
    }
    if ParseTimer(data).Some? {
      ScanFinds(ParseTimer(data).value, data);
    }
  }

  datatype ParsedTimers = ParsedTimers(timers: seq<TimerEntry>, ok: bool)

  /** The data starts with the encodings of these timers. */
  ghost predicate Begins(data: Bytes, ts: seq<TimerEntry>) {
    (forall i :: 0 <= i < |ts| ==> Fits(ts[i])) && TimerRecs(ts) <= data
  }

  /** As many of the `count` announced timers as the data holds, and whether that is all of them. */
  ghost predicate Decodes(data: Bytes, count: nat, p: ParsedTimers) {
    && Begins(data, p.timers) && |p.timers| <= count
    && (p.ok <==> |p.timers| == count)
    && (!p.ok ==> ParseTimer(data[|TimerRecs(p.timers)|..]).None?)
  }

  ghost function DecodeTimers(data: Bytes): (p: ParsedTimers)
    ensures |data| >= 4 ==> Decodes(data[4..], ReadU32(data), p)
  {
    if data == [] then ParsedTimers([], true)
    else if |data| < 4 then ParsedTimers([], false)
    else
      var count := ReadU32(data);
      SomeDecoding(data[4..], count, []);
      var p :| Decodes(data[4..], count, p);
      p
  }

  lemma BeginsSnoc(data: Bytes, ts: seq<TimerEntry>, e: TimerEntry)
    requires Begins(data, ts) && ParseTimer(data[|TimerRecs(ts)|..]) == Some(e)
    ensures Begins(data, ts + [e]) && |TimerRecs(ts + [e])| == |TimerRecs(ts)| + 12 + |e.name|
  {
    TimerRecsSnoc(ts, e);
    var n := |TimerRecs(ts)|;
    PrefixOf(TimerRecs(ts), TimerRec(e), data);
  }

  lemma PrefixOf(a: Bytes, b: Bytes, data: Bytes)
    requires a <= data
    ensures b <= data[|a|..] <==> a + b <= data
  {
    if b <= data[|a|..] {
      assert data == a + data[|a|..];
      Assoc(a, b, data[|a|..][|b|..]);
    }
    if a + b <= data {
      assert data[|a|..] == b + data[|a| + |b|..];
    }
  }

  lemma {:induction false} SomeDecoding(data: Bytes, count: nat, ts: seq<TimerEntry>)
    requires Begins(data, ts) && |ts| <= count
    ensures exists p :: Decodes(data, count, p)
    decreases count - |ts|
  {
    var next := ParseTimer(data[|TimerRecs(ts)|..]);
    if |ts| == count {
      assert Decodes(data, count, ParsedTimers(ts, true));
    } else if next.None? {
      assert Decodes(data, count, ParsedTimers(ts, false));
    } else {
      BeginsSnoc(data, ts, next.value);
      SomeDecoding(data, count, ts + [next.value]);
    }
  }

  /** Two timer lists that both begin the data agree as far as both go. */
  lemma {:induction false} BeginsUnique(data: Bytes, a: seq<TimerEntry>, b: seq<TimerEntry>)
    requires Begins(data, a) && Begins(data, b) && |a| <= |b|
    ensures a <= b
    decreases |a|
  {
    if a == [] {
    } else {
      BeginsHead(data, a);
      BeginsHead(data, b);
      BeginsUnique(data[12 + |a[0].name|..], a[1..], b[1..]);
      assert a == [a[0]] + a[1..] && b == [b[0]] + b[1..];
    }
  }

  lemma BeginsHead(data: Bytes, ts: seq<TimerEntry>)
    requires Begins(data, ts) && ts != []
    ensures ParseTimer(data) == Some(ts[0])
    ensures 12 + |ts[0].name| <= |data| && Begins(data[12 + |ts[0].name|..], ts[1..])
  {
    var e := ts[0];
    assert TimerRec(e) <= TimerRecs(ts) <= data;
    ScanFinds(e, data);
    ScanIsParse(data);
    PrefixOf(TimerRec(e), TimerRecs(ts[1..]), data);
  }

  lemma NextParses(data: Bytes, a: seq<TimerEntry>, b: seq<TimerEntry>)
    requires Begins(data, b) && a <= b && |a| < |b|
    ensures TimerRecs(a) <= data && ParseTimer(data[|TimerRecs(a)|..]).Some?
  {
    var e := b[|a|];
    assert b[..|a| + 1] == a + [e] && b == b[..|a| + 1] + b[|a| + 1..];
    TimerRecsAppend(a + [e], b[|a| + 1..]);
    TimerRecsSnoc(a, e);
    assert TimerRecs(a) <= TimerRecs(a + [e]) <= TimerRecs(b) <= data;
    PrefixOf(TimerRecs(a), TimerRec(e), data);
  }

  lemma DecodingIsUnique(data: Bytes, count: nat, p: ParsedTimers, q: ParsedTimers)
    requires Decodes(data, count, p) && Decodes(data, count, q)
    ensures p == q
  {
    if |p.timers| <= |q.timers| {
      BeginsUnique(data, p.timers, q.timers);
      if |p.timers| < |q.timers| { NextParses(data, p.timers, q.timers); }
    } else {
      BeginsUnique(data, q.timers, p.timers);
      NextParses(data, q.timers, p.timers);
    }
  }

  lemma {:induction false} TimerRecsAppend(a: seq<TimerEntry>, b: seq<TimerEntry>)
    ensures TimerRecs(a + b) == TimerRecs(a) + TimerRecs(b)
  {
    if a == [] {
      assert a + b == b && TimerRecs(a) + TimerRecs(b) == TimerRecs(b);
    } else {
      TimerRecsAppend(a[1..], b);
      assert (a + b)[1..] == a[1..] + b;
      Assoc(TimerRec(a[0]), TimerRecs(a[1..]), TimerRecs(b));
    }
  }

  lemma TimerRecsSnoc(ts: seq<TimerEntry>, e: TimerEntry)
    ensures TimerRecs(ts + [e]) == TimerRecs(ts) + TimerRec(e)
  {
    TimerRecsAppend(ts, [e]);
    assert [e][1..] == [] && TimerRec(e) + [] == TimerRec(e);
  }

  lemma AppendTimer(head: Bytes, recs: Bytes, e: TimerEntry)
    ensures head + recs + U32(|e.name|) + e.name + U64(ToUnsigned(e.fireAt)) == head + (recs + TimerRec(e))
  {
    var ns := U64(ToUnsigned(e.fireAt));
    Assoc(head + recs, U32(|e.name|), e.name);
    Assoc(head + recs, Field(e.name), ns);
    Assoc(head, recs, TimerRec(e));
  }

  predicate Fits(e: TimerEntry) {
    |e.name| < 0x1_0000_0000 && FitsInt64(e.fireAt)
  }

  ghost predicate Encodable(ts: seq<TimerEntry>) {
    |ts| < 0x1_0000_0000 && forall i :: 0 <= i < |ts| ==> Fits(ts[i])
  }

  /** A restored snapshot is the identical list, in the same order, if and only if there are fewer than
      2^32 timers, every name is shorter than that and every instant fits 64 bits. */
  lemma TimersRestore(ts: seq<TimerEntry>)
    ensures DecodeTimers(EncodeTimers(ts)) == ParsedTimers(ts, true) <==> Encodable(ts)
  {
    if Encodable(ts) {
      EncodableRestores(ts);
    }
    assert Encodable(DecodeTimers(EncodeTimers(ts)).timers);
  }

  lemma EncodableRestores(ts: seq<TimerEntry>)
    requires Encodable(ts)
    ensures DecodeTimers(EncodeTimers(ts)) == ParsedTimers(ts, true)
  {
    if ts != [] {
      var data := U32(|ts|) + TimerRecs(ts);
      assert ReadU32(data) == |ts| by {
        ReadU32Prefix(U32(|ts|), TimerRecs(ts));
      }
      assert data[4..] == TimerRecs(ts);
      DecodingIsUnique(data[4..], |ts|, ParsedTimers(ts, true), DecodeTimers(data));
    }
  }

  // ---------------------------------------------------------------- operator checkpoints

  ghost function EncodeCheckpoint(opState: Bytes, timerState: Bytes): Bytes {
    U32(|timerState|) + timerState + opState
  }

  /** Fills a buffer: the timer state's length, the timer state, the operator state. */
  method EncodeTimerCheckpoint(opState: Bytes, timerState: Bytes) returns (r: Bytes)
    ensures r == EncodeCheckpoint(opState, timerState)
  {
    var n := |timerState|;
    U32Bytes(n);
    var buf := new Byte[4 + n + |opState|](_ => 0);
    var b0, b1, b2, b3 := n / 0x100_0000 % 256, n / 0x1_0000 % 256, n / 0x100 % 256, n % 256;
    buf[0], buf[1], buf[2], buf[3] := b0, b1, b2, b3;
    Copy(buf, 4, timerState);
    Copy(buf, 4 + n, opState);
    r := buf[..];
    assert r[..4] == [b0, b1, b2, b3];
    assert r[4..4 + n] == buf[4..4 + n];
    assert r[4 + n..] == buf[4 + n..4 + n + |opState|];
    ThreeParts(r, U32(n), timerState, opState);
  }

  /** Go's copy into the part of a slice that starts at `at`. */
  method Copy(dst: array<Byte>, at: nat, src: Bytes)
    requires at + |src| <= dst.Length
    modifies dst
    ensures dst[at..at + |src|] == src
    ensures forall k :: 0 <= k < at || at + |src| <= k < dst.Length ==> dst[k] == old(dst[k])
  {
    for i := 0 to |src|
      invariant forall k :: 0 <= k < i ==> dst[at + k] == src[k]
      invariant forall k :: 0 <= k < at || at + |src| <= k < dst.Length ==> dst[k] == old(dst[k])
    {
      dst[at + i] := src[i];
    }
  }

  lemma ThreeParts(r: Bytes, a: Bytes, b: Bytes, c: Bytes)
    requires |r| == |a| + |b| + |c| && r[..|a|] == a && r[|a|..|a| + |b|] == b && r[|a| + |b|..] == c
    ensures r == a + b + c
  {
    assert r == r[..|a|] + r[|a|..|a| + |b|] + r[|a| + |b|..];
  }

  /** The slice bound 4+timerLen is computed in 32 bits; if it wraps, slicing panics. */
  datatype Decoded = Parts(opState: Bytes, timerState: Bytes) | Corrupt | Panic

  function DecodeCheckpoint(data: Bytes): Decoded {
    if |data| < 4 then Corrupt
    else
      var timerLen := ReadU32(data);
      if 4 + timerLen > |data| then Corrupt
      else
        var bound := (4 + timerLen) % 0x1_0000_0000;
        if bound < 4 then Panic else Parts(data[bound..], data[4..bound])
  }

  /** The wrap-around needs four gigabytes of data. */
  lemma NoPanicBelow4GiB(data: Bytes)
    ensures DecodeCheckpoint(data) == Panic <==> |data| >= 4 && 0x1_0000_0000 <= 4 + ReadU32(data) <= |data|
    ensures |data| < 0x1_0000_0000 ==> DecodeCheckpoint(data) != Panic
  {
  }

  /** Decoding undoes encoding if and only if the timer state leaves room for its own length in 32 bits. */
  lemma CheckpointRoundTrip(opState: Bytes, timerState: Bytes)
    ensures DecodeCheckpoint(EncodeCheckpoint(opState, timerState)) == Parts(opState, timerState) <==>
          |timerState| + 4 < 0x1_0000_0000
  {
    var data := EncodeCheckpoint(opState, timerState);
    var n := |timerState|;
    assert ReadU32(data) == n % 0x1_0000_0000 by {
      Assoc(U32(n), timerState, opState);
      ReadU32Prefix(U32(n), timerState + opState);
    }
    if n + 4 < 0x1_0000_0000 {
      assert data[4 + n..] == opState && data[4..4 + n] == timerState;
    } else if DecodeCheckpoint(data).Parts? {
      assert |DecodeCheckpoint(data).timerState| < 0x1_0000_0000 - 4;
    }
  }

  datatype Restored = Restored(opState: Bytes) | RestoreCorrupt | RestorePanic

  /** An operator with its timer queue; operators without timers have none. */
  class OperatorNode {
    const timerMgr: TimerManager?

    constructor (timerMgr: TimerManager?)
      ensures this.timerMgr == timerMgr
    {
      this.timerMgr := timerMgr;
    }

    /** `opState` is what the operator's own checkpoint returned; None is its error. */
    method HandleCheckpoint(opState: Option<Bytes>) returns (r: Option<Bytes>)
      ensures opState.None? ==> r.None?
      ensures opState.Some? && timerMgr == null ==> r == opState
      ensures opState.Some? && timerMgr != null ==>
                r == Some(EncodeCheckpoint(opState.value, EncodeTimers(timerMgr.timers)))
    {
      if opState.None? {
        return None;
      }
      if timerMgr == null {
        return opState;
      }
      var timerState := timerMgr.Snapshot();
      var all := EncodeTimerCheckpoint(opState.value, timerState);
      return Some(all);
    }

    method RestoreTimerState(data: Bytes) returns (r: Restored)
      modifies timerMgr
      ensures timerMgr == null || data == [] ==> r == Restored(data)
      ensures timerMgr != null && data == [] ==> timerMgr.timers == old(timerMgr.timers)
      ensures timerMgr != null && data != [] ==>
                match DecodeCheckpoint(data)
                case Corrupt => r == RestoreCorrupt && timerMgr.timers == old(timerMgr.timers)
                case Panic => r == RestorePanic && timerMgr.timers == old(timerMgr.timers)
                case Parts(op, timers) =>
                  && timerMgr.timers == DecodeTimers(timers).timers
                  && r == if DecodeTimers(timers).ok then Restored(op) else RestoreCorrupt
    {
      if timerMgr == null || |data| == 0 {
        return Restored(data);
      }
      match DecodeCheckpoint(data) {
        case Corrupt => return RestoreCorrupt;
        case Panic => return RestorePanic;
        case Parts(op, timerState) =>
          var ok := timerMgr.Restore(timerState);
          return if ok then Restored(op) else RestoreCorrupt;
      }
    }
  }

  /** What RestoreTimerState finds in what HandleCheckpoint wrote. */
  ghost function AfterRestart(opState: Bytes, ts: seq<TimerEntry>): Option<(Bytes, seq<TimerEntry>)> {
    match DecodeCheckpoint(EncodeCheckpoint(opState, EncodeTimers(ts)))
    case Parts(op, timers) => if DecodeTimers(timers).ok then Some((op, DecodeTimers(timers).timers)) else None
    case _ => None
  }

  /** A restart gives back the operator state and the identical timer list, hence the same behaviour of
      every later Register and PopExpired, if and only if the timer state stays below 2^32 - 4 bytes and
      every instant fits 64 bits. */
  lemma RestartIsExact(opState: Bytes, ts: seq<TimerEntry>)
    ensures AfterRestart(opState, ts) == Some((opState, ts)) <==>
            |EncodeTimers(ts)| + 4 < 0x1_0000_0000 && forall i :: 0 <= i < |ts| ==> FitsInt64(ts[i].fireAt)
  {
    TimersRestore(ts);
    TimerRecsSize(ts);
    CheckpointRoundTrip(opState, EncodeTimers(ts));
    if AfterRestart(opState, ts) == Some((opState, ts)) {
      DecodedSize(DecodeCheckpoint(EncodeCheckpoint(opState, EncodeTimers(ts))).timerState);
    }
  }

  /** Decoding cannot find more than the data holds. */
  lemma DecodedSize(data: Bytes)
    requires DecodeTimers(data).ok
    ensures |EncodeTimers(DecodeTimers(data).timers)| <= |data|
  {
  }

  lemma {:induction false} TimerRecsSize(ts: seq<TimerEntry>)
    ensures |TimerRecs(ts)| >= |ts|
    ensures forall i :: 0 <= i < |ts| ==> |TimerRecs(ts)| >= |ts[i].name|
  {
    if ts == [] {
    } else {
      TimerRecsSize(ts[1..]);
      assert ts == [ts[0]] + ts[1..];
    }
  }

  // ---------------------------------------------------------------- decoding, by what is encoded

  /** Decoding gives these parts if and only if the data is their encoding and the timer state leaves room for
      its own length; it panics if and only if the announced length is there but does not; all else is corrupt. */
  lemma DecodesExactly(data: Bytes, opState: Bytes, timerState: Bytes)
    ensures DecodeCheckpoint(data) == Parts(opState, timerState) <==>
            data == EncodeCheckpoint(opState, timerState) && |timerState| + 4 < 0x1_0000_0000
    ensures DecodeCheckpoint(data) == Panic <==> |data| >= 4 && 0x1_0000_0000 <= 4 + ReadU32(data) <= |data|
  {
    CheckpointRoundTrip(opState, timerState);
    if DecodeCheckpoint(data).Parts? {
      PartsAreEncoded(data);
    }
  }

  lemma PartsAreEncoded(data: Bytes)
    requires DecodeCheckpoint(data).Parts?
    ensures var p := DecodeCheckpoint(data);
            data == EncodeCheckpoint(p.opState, p.timerState) && |p.timerState| + 4 < 0x1_0000_0000
  {
    var n := ReadU32(data);
    assert 4 + n < 0x1_0000_0000 && DecodeCheckpoint(data) == Parts(data[4 + n..], data[4..4 + n]);
    ReadU32RoundTrip(data);
    assert data == data[..4] + data[4..4 + n] + data[4 + n..];
  }

  /** Every checkpoint that is not corrupt is an encoding, or panics. */
  lemma CorruptIsNoEncoding(data: Bytes)
    ensures DecodeCheckpoint(data) == Corrupt <==>
            DecodeCheckpoint(data) != Panic &&
            forall op, timers :: |timers| + 4 < 0x1_0000_0000 ==> data != EncodeCheckpoint(op, timers)
  {
    forall op, timers ensures |timers| + 4 < 0x1_0000_0000 && data == EncodeCheckpoint(op, timers) ==>
                              DecodeCheckpoint(data) == Parts(op, timers) {
      DecodesExactly(data, op, timers);
    }
    if DecodeCheckpoint(data).Parts? {
      DecodesExactly(data, DecodeCheckpoint(data).opState, DecodeCheckpoint(data).timerState);
    }
  }

  /** A timer snapshot is accepted if and only if it is empty or starts with the encoding of some timers; data
      too short for a count holds none. */
  lemma TimersAccepted(data: Bytes)
    ensures DecodeTimers(data).ok <==>
            data == [] || exists ts :: Encodable(ts) && U32(|ts|) + TimerRecs(ts) <= data
    ensures |data| < 4 ==> DecodeTimers(data).timers == []
  {
    var p := DecodeTimers(data);
    if |data| >= 4 {
      if p.ok {
        AcceptedStarts(data, p.timers);
      }
      forall ts | Encodable(ts) && U32(|ts|) + TimerRecs(ts) <= data ensures p.ok {
        StartsAccepted(data, ts);
      }
    } else {
      forall ts ensures !(U32(|ts|) + TimerRecs(ts) <= data) {
        assert |U32(|ts|) + TimerRecs(ts)| >= 4;
      }
    }
  }

  lemma AcceptedStarts(data: Bytes, ts: seq<TimerEntry>)
    requires |data| >= 4 && Decodes(data[4..], ReadU32(data), ParsedTimers(ts, true))
    ensures Encodable(ts) && U32(|ts|) + TimerRecs(ts) <= data
  {
    ReadU32RoundTrip(data);
    PrefixOf(data[..4], TimerRecs(ts), data);
  }

  lemma HeadOf(data: Bytes, head: Bytes, tail: Bytes)
    requires |head| == 4 && head + tail <= data
    ensures |data| >= 4 && tail <= data[4..] && ReadU32(data) == ReadU32(head)
  {
    assert head <= head + tail <= data;
    PrefixOf(head, tail, data);
    assert data == head + data[4..];
    ReadU32Prefix(head, data[4..]);
  }

  lemma CountIsRead(data: Bytes, ts: seq<TimerEntry>)
    requires |ts| < 0x1_0000_0000 && U32(|ts|) + TimerRecs(ts) <= data
    ensures |data| >= 4 && TimerRecs(ts) <= data[4..] && ReadU32(data) == |ts|
  {
    U32Small(|ts|);
    HeadOf(data, U32(|ts|), TimerRecs(ts));
  }

  lemma BodyDecodes(body: Bytes, ts: seq<TimerEntry>, p: ParsedTimers)
    requires Begins(body, ts) && Decodes(body, |ts|, p)
    ensures p == ParsedTimers(ts, true)
  {
    DecodingIsUnique(body, |ts|, ParsedTimers(ts, true), p);
  }

  lemma StartsAccepted(data: Bytes, ts: seq<TimerEntry>)
    requires Encodable(ts) && U32(|ts|) + TimerRecs(ts) <= data
    ensures |data| >= 4 && DecodeTimers(data) == ParsedTimers(ts, true)
  {
    CountIsRead(data, ts);
    BodyDecodes(data[4..], ts, DecodeTimers(data));
  }

  /** The formats, on examples: a timer "t" at instant -2, and a checkpoint with one byte of each state. */
  lemma FormatExamples()
    ensures EncodeTimers([TimerEntry([116], -2)]) ==
            [0, 0, 0, 1, 0, 0, 0, 1, 116, 255, 255, 255, 255, 255, 255, 255, 254]
    ensures EncodeCheckpoint([9], [8]) == [0, 0, 0, 1, 8, 9]
  {
    U32Of(1, [0, 0, 0, 1]);
    MinusTwo();
    var e := TimerEntry([116], -2);
    assert TimerRecs([e]) == TimerRec(e) + [];
    assert TimerRec(e) == [0, 0, 0, 1, 116, 255, 255, 255, 255, 255, 255, 255, 254];
    assert [0, 0, 0, 1] + TimerRec(e) == [0, 0, 0, 1, 0, 0, 0, 1, 116, 255, 255, 255, 255, 255, 255, 255, 254];
    assert [0, 0, 0, 1] + [8] + [9] == [0, 0, 0, 1, 8, 9];
  }

  lemma MinusTwo()
    ensures ToUnsigned(-2) == 0xFFFF_FFFF_FFFF_FFFE
    ensures U64(0xFFFF_FFFF_FFFF_FFFE) == [255, 255, 255, 255, 255, 255, 255, 254]
  {
    var b: Bytes := [255, 255, 255, 255, 255, 255, 255, 254];
    assert BigEndian(b, 2) == 0xFFFF && BigEndian(b, 4) == 0xFFFF_FFFF && BigEndian(b, 6) == 0xFFFF_FFFF_FFFF;
    assert ReadU64(b) == 0xFFFF_FFFF_FFFF_FFFE;
    ReadU64RoundTrip(b);
    assert b[..8] == b;
  }

  // ---------------------------------------------------------------- a restart, through the program's methods

  /** One node is checkpointed, another restored from that: operator state and timers are the same, if and only
      if they fit the encoding. */
  method Restart(from: OperatorNode, to: OperatorNode, opState: Bytes) returns (r: Restored)
    requires from.timerMgr != null && to.timerMgr != null && from.timerMgr != to.timerMgr
    modifies to.timerMgr
    ensures r == Restored(opState) && to.timerMgr.timers == old(from.timerMgr.timers) <==>
            |EncodeTimers(old(from.timerMgr.timers))| + 4 < 0x1_0000_0000
            && forall i :: 0 <= i < |old(from.timerMgr.timers)| ==> FitsInt64(old(from.timerMgr.timers)[i].fireAt)
  {
    var data := from.HandleCheckpoint(Some(opState));
    RestartIsExact(opState, from.timerMgr.timers);
    r := to.RestoreTimerState(data.value);
  }
}
