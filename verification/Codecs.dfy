/** The state store's encoding: big-endian integers and length-prefixed records
    (internal/engine/state_store.go). A Go string is a byte sequence; nil and the empty slice are the
    same value here. */
module Codecs {
  import opened Collections
  import opened Messages

  type Byte = x: int | 0 <= x < 256
  type Bytes = seq<Byte>

  // ---------------------------------------------------------------- integers

  function Pow256(n: nat): (p: nat)
    ensures p > 0
  {
    if n == 0 then 1 else 256 * Pow256(n - 1)
  }

  lemma Powers()
    ensures Pow256(4) == 0x1_0000_0000 && Pow256(8) == 0x1_0000_0000_0000_0000
  {
    assert Pow256(2) == 0x1_0000;
    assert Pow256(4) == 0x1_0000_0000;
    assert Pow256(6) == 0x1_0000_0000_0000;
  }

  /** The first `n` bytes as one number, most significant byte first. */
  function BigEndian(b: Bytes, n: nat): (v: nat)
    requires n <= |b|
    ensures v < Pow256(n)
  {
    if n == 0 then 0 else 256 * BigEndian(b, n - 1) + b[n - 1] as int
  }

  function Digits(v: nat, n: nat): (b: Bytes)
    ensures |b| == n
  {
    if n == 0 then [] else Digits(v / 256, n - 1) + [v % 256]
  }

  lemma {:induction false} BigEndianPrefix(a: Bytes, b: Bytes, n: nat)
    requires n <= |a| && n <= |b| && a[..n] == b[..n]
    ensures BigEndian(a, n) == BigEndian(b, n)
  {
    if n == 0 {
    } else {
      assert a[..n][..n - 1] == a[..n - 1] && b[..n][..n - 1] == b[..n - 1];
      assert a[..n][n - 1] == b[..n][n - 1];
      BigEndianPrefix(a, b, n - 1);
    }
  }

  lemma {:induction false} BigEndianInjective(a: Bytes, b: Bytes, n: nat)
    requires n <= |a| && n <= |b| && BigEndian(a, n) == BigEndian(b, n)
    ensures a[..n] == b[..n]
  {
    if n == 0 {
    } else {
      BigEndianInjective(a, b, n - 1);
      assert a[..n] == a[..n - 1] + [a[n - 1]] && b[..n] == b[..n - 1] + [b[n - 1]];
    }
  }

  /** What `n` bytes keep of a number. */
  function Low(v: nat, n: nat): nat {
    if n == 0 then 0 else 256 * Low(v / 256, n - 1) + v % 256
  }

  lemma {:induction false} DigitsRoundTrip(v: nat, n: nat)
    ensures BigEndian(Digits(v, n), n) == Low(v, n)
  {
    if n == 0 {
    } else {
      DigitsRoundTrip(v / 256, n - 1);
      var d := Digits(v, n);
      assert d[..n - 1] == Digits(v / 256, n - 1);
      BigEndianPrefix(d, Digits(v / 256, n - 1), n - 1);
    }
  }

  lemma {:induction false} LowOfSmall(v: nat, n: nat)
    requires v < Pow256(n)
    ensures Low(v, n) == v
  {
    if n == 0 {
    } else {
      LowOfSmall(v / 256, n - 1);
    }
  }

  lemma Low32(v: nat)
    ensures Low(v, 4) == v % 0x1_0000_0000
  {
    Nested(v);
    var q1, q2, q3, q4 := v / 0x100, v / 0x1_0000, v / 0x100_0000, v / 0x1_0000_0000;
    assert Low(q3, 1) == q3 % 256;
    assert Low(q2, 2) == 256 * (q3 % 256) + q2 % 256;
    assert Low(v, 4) == 256 * (256 * (256 * (q3 % 256) + q2 % 256) + q1 % 256) + v % 256;
    assert v == v % 256 + 256 * q1 && q1 == q1 % 256 + 256 * q2 && q2 == q2 % 256 + 256 * q3
          && q3 == q3 % 256 + 256 * q4;
    LowPart(v, Low(v, 4), q4);
  }

  lemma Nested(v: nat)
    ensures v / 0x100 / 256 == v / 0x1_0000 && v / 0x1_0000 / 256 == v / 0x100_0000
    ensures v / 0x100_0000 / 256 == v / 0x1_0000_0000
  {
  }

  lemma LowPart(v: nat, low: nat, high: nat)
    requires v == low + 0x1_0000_0000 * high && low < 0x1_0000_0000
    ensures v % 0x1_0000_0000 == low
  {
  }

  function ReadU32(b: Bytes): (v: nat)
    requires |b| >= 4
    ensures v < 0x1_0000_0000
  {
    Powers();
    BigEndian(b, 4)
  }

  function ReadU64(b: Bytes): (v: nat)
    requires |b| >= 8
    ensures v < 0x1_0000_0000_0000_0000
  {
    Powers();
    BigEndian(b, 8)
  }

  /** The four bytes that read back as the low 32 bits of `v`: the conversion to uint32 truncates. */
  ghost function U32(v: nat): (b: Bytes)
    ensures |b| == 4 && ReadU32(b) == v % 0x1_0000_0000
  {
    Digits32(v);
    var b :| |b| == 4 && ReadU32(b) == v % 0x1_0000_0000;
    b
  }

  /** The eight bytes of a 64-bit number. */
  ghost function U64(v: nat): (b: Bytes)
    requires v < 0x1_0000_0000_0000_0000
    ensures |b| == 8 && ReadU64(b) == v
  {
    Digits64(v);
    var b :| |b| == 8 && ReadU64(b) == v;
    b
  }

  lemma Digits32(v: nat)
    ensures ReadU32(Digits(v, 4)) == v % 0x1_0000_0000
  {
    DigitsRoundTrip(v, 4);
    Low32(v);
  }

  lemma Digits64(v: nat)
    requires v < 0x1_0000_0000_0000_0000
    ensures ReadU64(Digits(v, 8)) == v
  {
    Powers();
    DigitsRoundTrip(v, 8);
    LowOfSmall(v, 8);
  }

  lemma U32Small(v: nat)
    requires v < 0x1_0000_0000
    ensures ReadU32(U32(v)) == v
  {
  }

  lemma ReadU32RoundTrip(b: Bytes)
    requires |b| >= 4
    ensures U32(ReadU32(b)) == b[..4]
  {
    var c := U32(ReadU32(b));
    BigEndianInjective(c, b, 4);
    assert c[..4] == c;
  }

  lemma ReadU64RoundTrip(b: Bytes)
    requires |b| >= 8
    ensures U64(ReadU64(b)) == b[..8]
  {
    var c := U64(ReadU64(b));
    BigEndianInjective(c, b, 8);
    assert c[..8] == c;
  }

  /** The reads look only at the first four bytes. */
  lemma ReadU32Prefix(b: Bytes, tail: Bytes)
    requires |b| == 4
    ensures ReadU32(b + tail) == ReadU32(b)
  {
    assert (b + tail)[..4] == b == b[..4];
    BigEndianPrefix(b + tail, b, 4);
  }

  lemma ReadU64Prefix(b: Bytes, tail: Bytes)
    requires |b| == 8
    ensures ReadU64(b + tail) == ReadU64(b)
  {
    assert (b + tail)[..8] == b == b[..8];
    BigEndianPrefix(b + tail, b, 8);
  }

  /** The byte expressions the program writes. */
  lemma U32Bytes(v: nat)
    ensures U32(v) == [v / 0x100_0000 % 256, v / 0x1_0000 % 256, v / 0x100 % 256, v % 256]
  {
    Nested(v);
    assert Digits(v / 0x100_0000, 1) == [v / 0x100_0000 % 256];
    assert Digits(v / 0x1_0000, 2) == Digits(v / 0x100_0000, 1) + [v / 0x1_0000 % 256];
    assert Digits(v / 0x100, 3) == Digits(v / 0x1_0000, 2) + [v / 0x100 % 256];
    Digits32(v);
    BigEndianInjective(U32(v), Digits(v, 4), 4);
    assert U32(v)[..4] == U32(v) && Digits(v, 4)[..4] == Digits(v, 4);
  }

  method AppendUint32(buf: Bytes, v: nat) returns (r: Bytes)
    ensures r == buf + U32(v)
  {
    U32Bytes(v);
    r := buf + [v / 0x100_0000 % 256, v / 0x1_0000 % 256, v / 0x100 % 256, v % 256];
  }

  /** binary.BigEndian.PutUint64 into eight fresh bytes, which are appended. */
  method AppendUint64(buf: Bytes, v: nat) returns (r: Bytes)
    requires v < 0x1_0000_0000_0000_0000
    ensures r == buf + U64(v)
  {
    var ns: Bytes := [];
    var rest := v;
    for i := 0 to 8
      invariant |ns| == i && Digits(v, 8) == Digits(rest, 8 - i) + ns
    {
      assert Digits(rest, 8 - i) == Digits(rest / 256, 8 - i - 1) + [rest % 256];
      ns := [rest % 256] + ns;
      rest := rest / 256;
    }
    assert ns == Digits(v, 8);
    Digits64(v);
    BigEndianInjective(U64(v), ns, 8);
    assert U64(v)[..8] == U64(v) && ns[..8] == ns;
    r := buf + ns;
  }

  /** Two's complement, as uint64(int64) and back. */
  function ToUnsigned(x: int): (u: nat)
    ensures u < 0x1_0000_0000_0000_0000
  {
    x % 0x1_0000_0000_0000_0000
  }

  function ToSigned(u: nat): int {
    if u < 0x8000_0000_0000_0000 then u else u - 0x1_0000_0000_0000_0000
  }

  predicate FitsInt64(x: int) {
    -0x8000_0000_0000_0000 <= x < 0x8000_0000_0000_0000
  }

  lemma SignRoundTrip(x: int)
    ensures ToSigned(ToUnsigned(x)) == x <==> FitsInt64(x)
    ensures FitsInt64(ToSigned(ToUnsigned(x)))
  {
  }

  lemma UnsignedRoundTrip(u: nat)
    requires u < 0x1_0000_0000_0000_0000
    ensures ToUnsigned(ToSigned(u)) == u && FitsInt64(ToSigned(u))
  {
  }

  // ---------------------------------------------------------------- state-store records

  datatype Rec = Rec(key: Bytes, val: Bytes)

  predicate Small(r: Rec) {
    |r.key| < 0x1_0000_0000 && |r.val| < 0x1_0000_0000
  }

  ghost function Field(s: Bytes): Bytes {
    U32(|s|) + s
  }

  ghost function EncodeRec(r: Rec): (b: Bytes)
    ensures |b| == RecSize(r)
  {
    Field(r.key) + Field(r.val)
  }

  function RecSize(r: Rec): nat {
    8 + |r.key| + |r.val|
  }

  ghost function Encode(recs: seq<Rec>): Bytes {
    if recs == [] then [] else EncodeRec(recs[0]) + Encode(recs[1..])
  }

  /** A length-prefixed field at the start of the data, if all of it is there. */
  function ParseField(data: Bytes): (r: Option<Bytes>)
    ensures r.Some? ==> 4 + |r.value| <= |data|
  {
    if |data| < 4 || 4 + ReadU32(data) > |data| then None
    else Some(data[4..4 + ReadU32(data)])
  }

  function ParseRec(data: Bytes): (r: Option<Rec>)
    ensures r.Some? ==> RecSize(r.value) <= |data|
  {
    match ParseField(data)
    case None => None
    case Some(k) =>
      match ParseField(data[4 + |k|..])
      case None => None
      case Some(v) => Some(Rec(k, v))
  }

  datatype Parsed = Parsed(recs: seq<Rec>, ok: bool)

  /** The records before the first fault, and whether there was none. */
  function Parse(data: Bytes): Parsed
    decreases |data|
  {
    if data == [] then Parsed([], true)
    else
      match ParseRec(data)
      case None => Parsed([], false)
      case Some(r) =>
        var rest := Parse(data[RecSize(r)..]);
        Parsed([r] + rest.recs, rest.ok)
  }

  lemma FieldRoundTrip(s: Bytes, tail: Bytes)
    requires |s| < 0x1_0000_0000
    ensures ParseField(Field(s) + tail) == Some(s)
  {
    var data := Field(s) + tail;
    assert ReadU32(data) == |s| by {
      Assoc(U32(|s|), s, tail);
      ReadU32Prefix(U32(|s|), s + tail);
    }
    assert data[4..4 + |s|] == s;
  }

  lemma ParseFieldSound(data: Bytes)
    requires ParseField(data).Some?
    ensures var s := ParseField(data).value; |s| < 0x1_0000_0000 && data[..4 + |s|] == Field(s)
  {
    ReadU32RoundTrip(data);
    var s := ParseField(data).value;
    assert data[..4 + |s|] == data[..4] + s;
  }

  lemma RecRoundTrip(r: Rec, tail: Bytes)
    requires Small(r)
    ensures ParseRec(EncodeRec(r) + tail) == Some(r)
  {
    var data := EncodeRec(r) + tail;
    assert data == Field(r.key) + (Field(r.val) + tail);
    FieldRoundTrip(r.key, Field(r.val) + tail);
    assert data[4 + |r.key|..] == Field(r.val) + tail;
    FieldRoundTrip(r.val, tail);
  }

  lemma ParseRecSound(data: Bytes)
    requires ParseRec(data).Some?
    ensures var r := ParseRec(data).value; Small(r) && data[..RecSize(r)] == EncodeRec(r)
  {
    ParseFieldSound(data);
    var k := ParseField(data).value;
    ParseFieldSound(data[4 + |k|..]);
    var v := ParseField(data[4 + |k|..]).value;
    assert data[..8 + |k| + |v|] == data[..4 + |k|] + data[4 + |k|..][..4 + |v|];
  }

  ghost predicate AllSmall(recs: seq<Rec>) {
    forall i :: 0 <= i < |recs| ==> Small(recs[i])
  }

  /** Parsing undoes encoding. */
  lemma {:induction false} ParseEncode(recs: seq<Rec>)
    requires AllSmall(recs)
    ensures Parse(Encode(recs)) == Parsed(recs, true)
  {
    if recs == [] {
    } else {
      var r, data := recs[0], Encode(recs);
      RecRoundTrip(r, Encode(recs[1..]));
      assert data[RecSize(r)..] == Encode(recs[1..]);
      ParseEncode(recs[1..]);
      assert recs == [r] + recs[1..];
    }
  }

  /** Parsing splits any data into well-formed records and a rest. The rest is empty exactly when the
      data is accepted; otherwise no well-formed record starts it. */
  lemma {:induction false} ParseSplits(data: Bytes) returns (rest: Bytes)
    ensures AllSmall(Parse(data).recs) && data == Encode(Parse(data).recs) + rest
    ensures Parse(data).ok <==> rest == []
    ensures !Parse(data).ok ==> forall r, tail :: Small(r) ==> rest != EncodeRec(r) + tail
    decreases |data|
  {
    if data == [] {
      return [];
    }
    if ParseRec(data).None? {
      NoRecordStarts(data);
      assert Encode([]) + data == data;
      return data;
    }
    var r := ParseRec(data).value;
    rest := ParseSplits(data[RecSize(r)..]);
    ParsePrepend(data, r, Parse(data[RecSize(r)..]).recs, rest);
  }

  lemma NoRecordStarts(data: Bytes)
    requires ParseRec(data).None?
    ensures forall r, tail :: Small(r) ==> data != EncodeRec(r) + tail
  {
    forall r, tail | Small(r) ensures data != EncodeRec(r) + tail {
      RecRoundTrip(r, tail);
    }
  }

  lemma EncodeCons(r: Rec, recs: seq<Rec>)
    ensures Encode([r] + recs) == EncodeRec(r) + Encode(recs)
  {
    assert ([r] + recs)[1..] == recs;
  }

  lemma SmallCons(r: Rec, recs: seq<Rec>)
    requires Small(r) && AllSmall(recs)
    ensures AllSmall([r] + recs)
  {
  }

  lemma ParsePrepend(data: Bytes, r: Rec, recs: seq<Rec>, rest: Bytes)
    requires data != [] && ParseRec(data) == Some(r) && Parse(data[RecSize(r)..]).recs == recs
    requires AllSmall(recs) && data[RecSize(r)..] == Encode(recs) + rest
    ensures AllSmall(Parse(data).recs) && data == Encode(Parse(data).recs) + rest
  {
    ParseRecSound(data);
    SmallCons(r, recs);
    EncodeCons(r, recs);
    assert Parse(data).recs == [r] + recs;
    assert data == EncodeRec(r) + data[RecSize(r)..];
    Assoc(EncodeRec(r), Encode(recs), rest);
  }

  /** Data is accepted exactly when it is a concatenation of well-formed records, which are unique. */
  lemma AcceptsExactly(data: Bytes)
    ensures Parse(data).ok <==> exists recs :: AllSmall(recs) && data == Encode(recs)
    ensures forall recs :: AllSmall(recs) && data == Encode(recs) ==> Parse(data).recs == recs
  {
    forall recs | AllSmall(recs) && data == Encode(recs) ensures Parse(data) == Parsed(recs, true) {
      ParseEncode(recs);
    }
    if Parse(data).ok {
      var rest := ParseSplits(data);
      assert data == Encode(Parse(data).recs);
    }
  }

  // ---------------------------------------------------------------- the state store

  type Store = map<Bytes, Bytes>

  /** The map a record list stands for: later records win. */
  function Load(recs: seq<Rec>): Store {
    if recs == [] then map[] else Load(recs[..|recs| - 1])[recs[|recs| - 1].key := recs[|recs| - 1].val]
  }

  /** `recs` lists the store's entries, once each, in some order. */
  ghost predicate Enumerates(recs: seq<Rec>, m: Store) {
    && (forall i :: 0 <= i < |recs| ==> recs[i].key in m && m[recs[i].key] == recs[i].val)
    && (forall i, j :: 0 <= i < j < |recs| ==> recs[i].key != recs[j].key)
    && (forall k :: k in m ==> exists i :: 0 <= i < |recs| && recs[i].key == k)
  }

  ghost predicate SmallStore(m: Store) {
    forall k :: k in m ==> |k| < 0x1_0000_0000 && |m[k]| < 0x1_0000_0000
  }

  lemma {:induction false} LoadLatest(recs: seq<Rec>, i: nat)
    requires i < |recs| && forall j :: i < j < |recs| ==> recs[j].key != recs[i].key
    ensures recs[i].key in Load(recs) && Load(recs)[recs[i].key] == recs[i].val
  {
    if i < |recs| - 1 {
      LoadLatest(recs[..|recs| - 1], i);
    }
  }

  lemma {:induction false} LoadKeys(recs: seq<Rec>, k: Bytes) returns (i: nat)
    requires k in Load(recs)
    ensures i < |recs| && recs[i].key == k
  {
    if recs[|recs| - 1].key == k {
      return |recs| - 1;
    }
    i := LoadKeys(recs[..|recs| - 1], k);
  }

  lemma LoadEnumeration(recs: seq<Rec>, m: Store)
    requires Enumerates(recs, m)
    ensures Load(recs) == m
  {
    forall k | k in m ensures k in Load(recs) && Load(recs)[k] == m[k] {
      var i :| 0 <= i < |recs| && recs[i].key == k;
      LoadLatest(recs, i);
    }
    forall k | k in Load(recs) ensures k in m {
      var i := LoadKeys(recs, k);
    }
    assert Load(recs).Keys == m.Keys;
  }

  lemma {:induction false} LoadIsSmall(recs: seq<Rec>)
    requires AllSmall(recs)
    ensures SmallStore(Load(recs))
  {
    if recs == [] {
    } else {
      LoadIsSmall(recs[..|recs| - 1]);
    }
  }

  /** Restoring a snapshot gives back the same store, in whatever order its entries were enumerated, if
      and only if every key and value is shorter than 2^32 bytes. */
  lemma SnapshotRestores(recs: seq<Rec>, m: Store)
    requires Enumerates(recs, m)
    ensures Parse(Encode(recs)).ok && Load(Parse(Encode(recs)).recs) == m <==> SmallStore(m)
  {
    if SmallStore(m) {
      ParseEncode(recs);
      LoadEnumeration(recs, m);
    } else {
      var rest := ParseSplits(Encode(recs));
      LoadIsSmall(Parse(Encode(recs)).recs);
    }
  }

  lemma U32Of(v: nat, b: Bytes)
    requires v < 256 && b == [0, 0, 0, v]
    ensures U32(v) == b
  {
    U32Bytes(v);
  }

  /** The format, on an example: key "a" with the two bytes 7 and 8. */
  lemma FormatExample()
    ensures Encode([Rec([97], [7, 8])]) == [0, 0, 0, 1, 97, 0, 0, 0, 2, 7, 8]
  {
    U32Of(1, [0, 0, 0, 1]);
    U32Of(2, [0, 0, 0, 2]);
    var r, none: seq<Rec> := Rec([97], [7, 8]), [];
    EncodeCons(r, none);
    assert [r] + none == [r];
    assert EncodeRec(r) + [] == EncodeRec(r);
    assert [0, 0, 0, 1] + [97] == [0, 0, 0, 1, 97];
    assert [0, 0, 0, 2] + [7, 8] == [0, 0, 0, 2, 7, 8];
  }

  class InMemoryStateStore {
    var data: Store

    constructor ()
      ensures data == map[]
    {
      data := map[];
    }

    method Get(key: Bytes) returns (v: Option<Bytes>)
      ensures v == if key in data then Some(data[key]) else None
    {
      if key !in data { return None; }
      return Some(data[key]);
    }

    method Put(key: Bytes, value: Bytes)
      modifies this
      ensures data == old(data)[key := value]
    {
      data := data[key := value];
    }

    method Delete(key: Bytes)
      modifies this
      ensures data == old(data) - {key}
    {
      data := data - {key};
    }

    /** The entries, encoded in the order in which the map happens to be enumerated. */
    method Snapshot() returns (buf: Bytes, ghost recs: seq<Rec>)
      ensures Enumerates(recs, data) && buf == Encode(recs)
    {
      buf, recs := [], [];
      var todo := data.Keys;
      while todo != {}
        invariant todo <= data.Keys
        invariant Enumerates(recs, data - todo) && buf == Encode(recs)
        decreases todo
      {
        var k :| k in todo;
        var v := data[k];
        EncodeSnoc(recs, Rec(k, v));
        AppendFields(buf, Rec(k, v));
        EnumerateNext(recs, data, todo, k);
        buf := AppendUint32(buf, |k|);
        buf := buf + k;
        buf := AppendUint32(buf, |v|);
        buf := buf + v;
        recs := recs + [Rec(k, v)];
        todo := todo - {k};
      }
      assert data - todo == data;
    }

    /** Replaces the contents by the records in front of the first fault, and reports whether there is one. */
    method Restore(bytes: Bytes) returns (ok: bool)
      modifies this
      ensures ok == Parse(bytes).ok && data == Load(Parse(bytes).recs)
    {
      data := map[];
      var offset := 0;
      ghost var recs := [];
      while offset < |bytes|
        invariant 0 <= offset <= |bytes|
        invariant data == Load(recs)
        invariant ParsedUpTo(bytes, offset, recs)
      {
        var start := offset;
        var found, key, val;
        found, key, offset := ReadField(bytes, start);
        if !found {
          ParseFault(bytes, start, recs);
          return false;
        }
        found, val, offset := ReadField(bytes, offset);
        if !found {
          ParseFault(bytes, start, recs);
          return false;
        }
        ParseNext(bytes, start, offset, recs, Rec(key, val));
        recs := recs + [Rec(key, val)];
        data := data[key := val];
      }
      assert bytes[offset..] == [] && recs + [] == recs;
      return true;
    }
  }

  /** `recs` is what the first `offset` bytes parse to. */
  ghost predicate ParsedUpTo(bytes: Bytes, offset: nat, recs: seq<Rec>) {
    && offset <= |bytes|
    && Parse(bytes) == Parsed(recs + Parse(bytes[offset..]).recs, Parse(bytes[offset..]).ok)
  }

  lemma ParseNext(bytes: Bytes, start: nat, next: nat, recs: seq<Rec>, r: Rec)
    requires start < |bytes| && next == start + RecSize(r) && next <= |bytes|
    requires ParseRec(bytes[start..]) == Some(r) && ParsedUpTo(bytes, start, recs)
    ensures ParsedUpTo(bytes, next, recs + [r]) && Load(recs + [r]) == Load(recs)[r.key := r.val]
  {
    var p := Parse(bytes[next..]);
    assert Parse(bytes[start..]) == Parsed([r] + p.recs, p.ok) by {
      assert bytes[next..] == bytes[start..][RecSize(r)..];
    }
    Assoc(recs, [r], p.recs);
    LoadSnoc(recs, r);
  }

  lemma LoadSnoc(recs: seq<Rec>, r: Rec)
    ensures Load(recs + [r]) == Load(recs)[r.key := r.val]
  {
    assert (recs + [r])[..|recs|] == recs;
  }

  lemma ParseFault(bytes: Bytes, start: nat, recs: seq<Rec>)
    requires start < |bytes| && ParseRec(bytes[start..]).None? && ParsedUpTo(bytes, start, recs)
    ensures Parse(bytes) == Parsed(recs, false)
  {
    assert recs + [] == recs;
  }

  /** A length and that many bytes at `offset`, or failure if the data ends first. */
  method ReadField(bytes: Bytes, offset: nat) returns (found: bool, s: Bytes, next: nat)
    requires offset <= |bytes|
    ensures offset <= next <= |bytes|
    ensures ParseField(bytes[offset..]) == if found then Some(s) else None
    ensures found ==> next == offset + 4 + |s| && bytes[next..] == bytes[offset..][4 + |s|..]
  {
    if offset + 4 > |bytes| {
      return false, [], offset;
    }
    var n := ReadU32(bytes[offset..]);
    next := offset + 4;
    if next + n > |bytes| {
      return false, [], next;
    }
    s := bytes[next..next + n];
    assert s == bytes[offset..][4..4 + n];
    return true, s, next + n;
  }

  lemma {:induction false} EncodeSnoc(recs: seq<Rec>, r: Rec)
    ensures Encode(recs + [r]) == Encode(recs) + EncodeRec(r)
  {
    if recs == [] {
      assert [] + [r] == [r] && [r][1..] == [];
      assert EncodeRec(r) + [] == EncodeRec(r) == [] + EncodeRec(r);
    } else {
      EncodeSnoc(recs[1..], r);
      assert (recs + [r])[1..] == recs[1..] + [r];
      Assoc(EncodeRec(recs[0]), Encode(recs[1..]), EncodeRec(r));
    }
  }

  lemma AppendFields(buf: Bytes, r: Rec)
    ensures buf + U32(|r.key|) + r.key + U32(|r.val|) + r.val == buf + EncodeRec(r)
  {
    Assoc(buf, U32(|r.key|), r.key);
    Assoc(buf + Field(r.key), U32(|r.val|), r.val);
    Assoc(buf, Field(r.key), Field(r.val));
  }

  lemma EnumerateNext(recs: seq<Rec>, m: Store, todo: set<Bytes>, k: Bytes)
    requires todo <= m.Keys && k in todo && Enumerates(recs, m - todo)
    ensures Enumerates(recs + [Rec(k, m[k])], m - (todo - {k}))
  {
    var more := recs + [Rec(k, m[k])];
    var m' := m - (todo - {k});
    forall x | x in m' ensures exists i :: 0 <= i < |more| && more[i].key == x {
      if x == k {
        assert more[|recs|].key == x;
      } else {
        assert x in m - todo;
        var i :| 0 <= i < |recs| && recs[i].key == x;
        assert more[i].key == x;
      }
    }
  }

  /** A store restored from another's snapshot holds the same, whatever it held before, if and only if keys and
      values are shorter than 2^32 bytes. */
  method Transfer(from: InMemoryStateStore, to: InMemoryStateStore) returns (ok: bool)
    modifies to
    ensures ok && to.data == old(from.data) <==> SmallStore(old(from.data))
  {
    var buf, recs := from.Snapshot();
    SnapshotRestores(recs, from.data);
    ok := to.Restore(buf);
  }
}
