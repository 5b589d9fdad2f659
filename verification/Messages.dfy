/** The vocabulary of internal/engine/message.go. */
module Messages {
  import opened Collections

  datatype Option<+T> = None | Some(value: T)

  /** Instants, in nanoseconds from a fixed origin: Go's zero `time.Time` where watermarks are compared
      with it, the Unix epoch where timers are encoded. */
  type Time = int
  const ZERO_TIME: Time := 0

  datatype DataMessage = DataMessage(key: string, value: string, eventTime: Time)

  datatype BarrierSignal = BarrierSignal(epoch: nat, minEpoch: nat, timestamp: Time, thenStop: bool)

  datatype WatermarkSignal = WatermarkSignal(eventTime: Time, idle: bool)

  /** `Inert` stands for a signal whose payload pointer is nil: the engine passes it along like
      data and ignores it when it is dispatched. */
  datatype Message =
    | Data(data: DataMessage)
    | Barrier(barrier: BarrierSignal)
    | Watermark(watermark: WatermarkSignal)
    | Stop
    | Inert

  /** A message tagged with the input that delivered it. */
  datatype Indexed = Indexed(input: nat, msg: Message)

  /** The messages one input contributed to an interleaving, in order. */
  function Stream(t: seq<Indexed>, i: nat): seq<Message> {
    if t == [] then [] else Deliver(Stream(t[..|t| - 1], i), t[|t| - 1], i)
  }

  /** Input `i`'s deliveries after one more message of the interleaving. */
  function Deliver(s: seq<Message>, m: Indexed, i: nat): seq<Message> {
    if m.input == i then s + [m.msg] else s
  }

  lemma StreamSnoc(t: seq<Indexed>, m: Indexed, i: nat)
    ensures Stream(t + [m], i) == Deliver(Stream(t, i), m, i)
  {
    assert (t + [m])[..|t + [m]| - 1] == t;
  }

  lemma {:induction false} StreamAppend(t: seq<Indexed>, u: seq<Indexed>, i: nat)
    ensures Stream(t + u, i) == Stream(t, i) + Stream(u, i)
  {
    if u == [] {
      assert t + u == t;
    } else {
      var front, last := u[..|u| - 1], u[|u| - 1];
      StreamAppend(t, front, i);
      assert t + u == (t + front) + [last];
      StreamSnoc(t + front, last, i);
      Assoc(Stream(t, i), Stream(front, i), [last.msg]);
    }
  }

  /** Everything but the barriers. */
  function NonBarriers(s: seq<Message>): seq<Message> {
    if s == [] then []
    else if s[|s| - 1].Barrier? then NonBarriers(s[..|s| - 1])
    else NonBarriers(s[..|s| - 1]) + [s[|s| - 1]]
  }

  function Barriers(s: seq<Message>): seq<BarrierSignal> {
    if s == [] then []
    else if s[|s| - 1].Barrier? then Barriers(s[..|s| - 1]) + [s[|s| - 1].barrier]
    else Barriers(s[..|s| - 1])
  }

  /** The non-barrier messages in front of the `k`-th barrier (counting from one). */
  function Cut(s: seq<Message>, k: nat): seq<Message> {
    if s == [] then []
    else if s[|s| - 1].Barrier? || |Barriers(s[..|s| - 1])| >= k then Cut(s[..|s| - 1], k)
    else Cut(s[..|s| - 1], k) + [s[|s| - 1]]
  }

  lemma NonBarriersSnoc(s: seq<Message>, m: Message)
    ensures NonBarriers(s + [m]) == if m.Barrier? then NonBarriers(s) else NonBarriers(s) + [m]
  {
    assert (s + [m])[..|s + [m]| - 1] == s;
  }

  lemma BarriersSnoc(s: seq<Message>, m: Message)
    ensures Barriers(s + [m]) == if m.Barrier? then Barriers(s) + [m.barrier] else Barriers(s)
  {
    assert (s + [m])[..|s + [m]| - 1] == s;
  }

  lemma CutSnoc(s: seq<Message>, m: Message, k: nat)
    ensures Cut(s + [m], k) == if m.Barrier? || |Barriers(s)| >= k then Cut(s, k) else Cut(s, k) + [m]
  {
    assert (s + [m])[..|s + [m]| - 1] == s;
  }

  /** With fewer than `k` barriers the cut is everything so far. */
  lemma {:induction false} CutOpen(s: seq<Message>, k: nat)
    requires |Barriers(s)| < k
    ensures Cut(s, k) == NonBarriers(s)
  {
    if s == [] {
    } else {
      CutOpen(s[..|s| - 1], k);
    }
  }

  /** Once the `k`-th barrier is there, later messages do not move the cut. */
  lemma {:induction false} CutStable(s: seq<Message>, u: seq<Message>, k: nat)
    requires |Barriers(s)| >= k
    ensures Cut(s + u, k) == Cut(s, k)
    ensures Barriers(s) <= Barriers(s + u)
  {
    if u == [] {
      assert s + u == s;
    } else {
      var front, last := u[..|u| - 1], u[|u| - 1];
      CutStable(s, front, k);
      assert s + u == (s + front) + [last];
      BarriersSnoc(s + front, last);
      CutSnoc(s + front, last, k);
    }
  }
}
