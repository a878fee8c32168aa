/** The bytes of a report. A C `char` is a Dafny `char`; where the code reads one as a number,
    its low eight bits count. */
module Codec {
  import opened CStrings
  import opened Reports

  const MAX_REPORT_LEN := 1024
  const MAX_INT := 0x7fff_ffff

  predicate IsInt(n: int) {
    -MAX_INT - 1 <= n <= MAX_INT
  }

  function LowByte(n: int): (c: char)
    ensures c as int == n % 256
  {
    (n % 256) as char
  }

  function ByteValue(c: char): (n: nat)
    ensures n < 256
  {
    c as int % 256
  }

  /** The `k` low bytes of a number, least significant first. */
  function ToBytes(u: nat, k: nat): (s: string)
    ensures |s| == k
  {
    if k == 0 then [] else [LowByte(u)] + ToBytes(u / 256, k - 1)
  }

  function FromBytes(s: string): (u: nat)
    ensures u < Range(|s|)
  {
    if s == [] then 0 else ByteValue(s[0]) + 256 * FromBytes(s[1..])
  }

  /** How many numbers `k` bytes can tell apart. */
  function Range(k: nat): (n: nat)
    ensures n > 0
  {
    if k == 0 then 1 else 256 * Range(k - 1)
  }

  lemma {:induction false} BytesRoundTrip(u: nat, k: nat)
    ensures FromBytes(ToBytes(u, k)) == u <==> u < Range(k)
  {
    if k > 0 {
      var s := ToBytes(u, k);
      assert s[1..] == ToBytes(u / 256, k - 1) && ByteValue(s[0]) == u % 256;
      BytesRoundTrip(u / 256, k - 1);
      assert u == 256 * (u / 256) + u % 256;
    }
  }

  /** The four bytes of a C `int`, in two's complement. */
  function EncodeInt(n: int): (s: string)
    ensures |s| == 4
  {
    ToBytes(n % 0x1_0000_0000, 4)
  }

  function DecodeInt(s: string): (n: int)
    requires |s| == 4
    ensures IsInt(n)
  {
    assert Range(4) == 256 * Range(3) && Range(3) == 256 * Range(2);
    var u := FromBytes(s);
    if u <= MAX_INT then u else u - 0x1_0000_0000
  }

  /** A number survives the trip exactly when it fits a C `int`. */
  lemma {:induction false} IntRoundTrip(n: int)
    ensures DecodeInt(EncodeInt(n)) == n <==> IsInt(n)
  {
    assert Range(4) == 256 * Range(3) && Range(3) == 256 * Range(2);
    BytesRoundTrip(n % 0x1_0000_0000, 4);
  }

  lemma FirstByte(u: nat, k: nat)
    requires k > 0
    ensures ToBytes(u, k)[0] == LowByte(u) && ToBytes(u, k)[1..] == ToBytes(u / 256, k - 1)
  {
  }

  /** What the bytes are worth: the first least, and of a negative number 2 to the 32nd more than it. */
  lemma {:induction false} BytesOfInt(n: int)
    requires IsInt(n)
    ensures var s := EncodeInt(n);
            && s[0] as int < 256 && s[1] as int < 256 && s[2] as int < 256 && s[3] as int < 256
            && s[0] as int + 256 * s[1] as int + 65536 * s[2] as int + 16777216 * s[3] as int ==
               if n < 0 then n + 0x1_0000_0000 else n
  {
    hide ToBytes;
    var u := n % 0x1_0000_0000;
    var u1 := u / 256;
    var u2 := u1 / 256;
    var u3 := u2 / 256;
    FirstByte(u, 4);
    FirstByte(u1, 3);
    FirstByte(u2, 2);
    FirstByte(u3, 1);
    var s := EncodeInt(n);
    assert s[1] == s[1..][0] && s[2] == s[1..][1..][0] && s[3] == s[1..][1..][1..][0];
  }

  datatype Record = Record(kind: string, stats: Stats)

  function EncodeStats(s: Stats): (r: string)
    ensures |r| == 12
  {
    EncodeInt(s.numQueries) + EncodeInt(s.maxTime) + EncodeInt(s.minTime)
  }

  function DecodeStats(s: string): Stats
    requires |s| == 12
  {
    Stats(DecodeInt(s[..4]), DecodeInt(s[4..8]), DecodeInt(s[8..]))
  }

  predicate IntStats(s: Stats) {
    IsInt(s.numQueries) && IsInt(s.maxTime) && IsInt(s.minTime)
  }

  lemma {:induction false} StatsRoundTrip(s: Stats)
    ensures DecodeStats(EncodeStats(s)) == s <==> IntStats(s)
  {
    hide EncodeInt, DecodeInt;
    var e := EncodeStats(s);
    assert e[..4] == EncodeInt(s.numQueries) && e[4..8] == EncodeInt(s.maxTime) && e[8..] == EncodeInt(s.minTime);
    IntRoundTrip(s.numQueries);
    IntRoundTrip(s.maxTime);
    IntRoundTrip(s.minTime);
  }

  function EncodeRecord(r: Record): (s: string)
    ensures |s| == |r.kind| + 13
  {
    [LowByte(|r.kind|)] + r.kind + EncodeStats(r.stats)
  }

  /** Where everything is in a record: the length of the name, the name, and then the number of
      queries, the longest and the shortest time. */
  lemma {:induction false} RecordLayout(r: Record)
    ensures var s, n := EncodeRecord(r), |r.kind|;
            && s[0] as int == n % 256 && s[1..n + 1] == r.kind
            && s[n + 1..n + 5] == EncodeInt(r.stats.numQueries)
            && s[n + 5..n + 9] == EncodeInt(r.stats.maxTime)
            && s[n + 9..] == EncodeInt(r.stats.minTime)
  {
    hide EncodeInt;
  }

  function EncodeRecords(rs: seq<Record>): string {
    if rs == [] then [] else EncodeRecord(rs[0]) + EncodeRecords(rs[1..])
  }

  function EncodeReport(rs: seq<Record>): string {
    [LowByte(|rs|)] + EncodeRecords(rs)
  }

  /** What one child puts on the pipe: its connect time, then its report. */
  function EncodeFrame(connectTime: int, rs: seq<Record>): string {
    EncodeInt(connectTime) + EncodeReport(rs)
  }

  // ----- Reading

  datatype Parsed = Parsed(record: Record, rest: string) | AtEnd | TooShort

  /** One record off the front of the pipe: a length byte, then name and counters in one read.
      The name is taken as a C string, so it ends at its first NUL. */
  function ParseRecord(s: string): (p: Parsed)
    ensures p.Parsed? ==> |p.rest| < |s|
  {
    if s == [] then AtEnd
    else
      var len := ByteValue(s[0]);
      if |s| < len + 13 then TooShort
      else Parsed(Record(UpTo(s[1..len + 1], NUL), DecodeStats(s[len + 1..len + 13])), s[len + 13..])
  }

  /** What becomes of the process that reads: it goes on, it meets the end of the pipe and
      silently gives up on the report, or it dies. */
  datatype Outcome = Collected(table: Table, rest: string) | EndOfPipe(table: Table) | Died

  /** `n` records read and merged one by one. */
  function CollectRecords(t: Table, s: string, n: nat): Outcome {
    if n == 0 then Collected(t, s)
    else
      match ParseRecord(s)
      case AtEnd => EndOfPipe(t)
      case TooShort => Died
      case Parsed(r, rest) =>
        if r.kind in t then CollectRecords(t[r.kind := Merge(t[r.kind], r.stats)], rest, n - 1) else Died
  }

  /** `Query_report::update_from_fd` on a pipe holding `s`. */
  function CollectReport(t: Table, s: string): Outcome {
    if s == [] then EndOfPipe(t) else CollectRecords(t, s[1..], ByteValue(s[0]))
  }

  datatype Decoded = Decoded(records: seq<Record>, rest: string) | Malformed

  function DecodeRecords(s: string, n: nat): Decoded {
    if n == 0 then Decoded([], s)
    else
      match ParseRecord(s)
      case AtEnd => Malformed
      case TooShort => Malformed
      case Parsed(r, rest) =>
        match DecodeRecords(rest, n - 1)
        case Decoded(rs, rest') => Decoded([r] + rs, rest')
        case Malformed => Malformed
  }

  function DecodeReport(s: string): Decoded {
    if s == [] then Malformed else DecodeRecords(s[1..], ByteValue(s[0]))
  }

  function MergeAll(t: Table, rs: seq<Record>): Table
    requires forall r :: r in rs ==> r.kind in t
  {
    if rs == [] then t
    else
      assert rs[0] in rs && forall r :: r in rs[1..] ==> r in rs;
      MergeAll(t[rs[0].kind := Merge(t[rs[0].kind], rs[0].stats)], rs[1..])
  }

  /** Collecting is decoding followed by merging. */
  lemma {:induction false} CollectIsDecodeAndMerge(t: Table, s: string, n: nat)
    ensures var d := DecodeRecords(s, n);
            d.Decoded? && (forall r :: r in d.records ==> r.kind in t) ==>
              CollectRecords(t, s, n) == Collected(MergeAll(t, d.records), d.rest)
  {
    var d := DecodeRecords(s, n);
    if n > 0 && d.Decoded? && forall r :: r in d.records ==> r.kind in t {
      var r, rest := ParseRecord(s).record, ParseRecord(s).rest;
      assert d.records[0] == r && d.records[1..] == DecodeRecords(rest, n - 1).records;
      assert r in d.records;
      assert forall q :: q in d.records[1..] ==> q in d.records;
      CollectIsDecodeAndMerge(t[r.kind := Merge(t[r.kind], r.stats)], rest, n - 1);
    }
  }

  /** The records of the listed query types (a type without counters would read as zeros). */
  ghost function RecordsOf(kinds: seq<string>, t: Table): (rs: seq<Record>)
    ensures |rs| == |kinds|
  {
    seq(|kinds|, i requires 0 <= i < |kinds| =>
      Record(kinds[i], if kinds[i] in t then t[kinds[i]] else NO_STATS))
  }

  lemma RecordsAt(kinds: seq<string>, t: Table, i: nat)
    requires i < |kinds| && kinds[i] in t
    ensures RecordsOf(kinds, t)[i] == Record(kinds[i], t[kinds[i]])
  {
  }

  /** Merging the records of a table one by one is merging the tables. */
  lemma {:induction false} MergeRecordsOf(t: Table, kinds: seq<string>, u: Table)
    requires Distinct(kinds) && forall k :: k in kinds ==> k in t && k in u
    ensures var rs := RecordsOf(kinds, u);
            && (forall r :: r in rs ==> r.kind in t)
            && MergeAll(t, rs) == map k | k in t :: if k in kinds then Merge(t[k], u[k]) else t[k]
  {
    hide Merge;
    var rs := RecordsOf(kinds, u);
    forall r: Record | r in rs ensures r.kind in kinds {
      var i :| 0 <= i < |rs| && rs[i] == r;
      assert r.kind == kinds[i];
    }
    if kinds != [] {
      var k0, t' := kinds[0], t[kinds[0] := Merge(t[kinds[0]], u[kinds[0]])];
      assert forall k :: k in kinds[1..] ==> k in kinds;
      assert RecordsOf(kinds[1..], u) == rs[1..];
      MergeRecordsOf(t', kinds[1..], u);
      assert forall k :: k in kinds <==> k == k0 || k in kinds[1..];
      assert k0 !in kinds[1..];
    }
  }

  // ----- Round trips

  /** Records that survive the trip: the name's length fits its byte, the name holds no NUL,
      the counters fit a C `int`. */
  predicate Sendable(r: Record) {
    |r.kind| <= 255 && NUL !in r.kind && IntStats(r.stats)
  }

  /** Reading an encoded record back: the right record exactly if it was sendable, and then
      nothing behind it is touched. */
  lemma ParseEncodedRecord(r: Record, rest: string)
    ensures var p := ParseRecord(EncodeRecord(r) + rest);
            if Sendable(r) then p == Parsed(r, rest) else p.Parsed? ==> p.record != r
  {
    var s, len := EncodeRecord(r) + rest, |r.kind| % 256;
    assert s[0] == LowByte(|r.kind|);
    if |r.kind| <= 255 {
      assert s[1..len + 1] == r.kind;
      assert s[len + 1..len + 13] == EncodeStats(r.stats);
      assert s[len + 13..] == rest;
      StatsRoundTrip(r.stats);
    } else {
      assert |s[1..len + 1]| == len < |r.kind|;
    }
  }

  lemma {:induction false} RecordsRoundTrip(rs: seq<Record>, rest: string)
    ensures DecodeRecords(EncodeRecords(rs) + rest, |rs|) == Decoded(rs, rest)
            <==> forall i :: 0 <= i < |rs| ==> Sendable(rs[i])
  {
    var s := EncodeRecords(rs) + rest;
    if rs == [] {
      assert s == rest;
    } else {
      var tail := EncodeRecords(rs[1..]) + rest;
      assert s == EncodeRecord(rs[0]) + tail;
      ParseEncodedRecord(rs[0], tail);
      RecordsRoundTrip(rs[1..], rest);
      DecodeFirst(s, tail, rs, rest);
    }
  }

  /** Decoding a list of records is decoding its first and then the others. */
  lemma DecodeFirst(s: string, tail: string, rs: seq<Record>, rest: string)
    requires rs != []
    ensures DecodeRecords(s, |rs|) == Decoded(rs, rest) ==>
              ParseRecord(s).Parsed? && ParseRecord(s).record == rs[0]
    ensures ParseRecord(s) == Parsed(rs[0], tail) ==>
              (DecodeRecords(s, |rs|) == Decoded(rs, rest) <==> DecodeRecords(tail, |rs| - 1) == Decoded(rs[1..], rest))
  {
    assert rs == [rs[0]] + rs[1..];
    var p := ParseRecord(s);
    if p.Parsed? {
      var d := DecodeRecords(p.rest, |rs| - 1);
      assert d.Decoded? ==> ([p.record] + d.records)[0] == p.record && ([p.record] + d.records)[1..] == d.records;
    }
  }

  lemma DecodedCount(s: string, n: nat)
    ensures var d := DecodeRecords(s, n); d.Decoded? ==> |d.records| == n
  {
  }

  lemma {:induction false} DecodeCountByte(rs: seq<Record>, rest: string)
    ensures DecodeReport(EncodeReport(rs) + rest) == DecodeRecords(EncodeRecords(rs) + rest, |rs| % 256)
  {
    hide DecodeRecords;
    var s := EncodeReport(rs) + rest;
    assert s[1..] == EncodeRecords(rs) + rest;
  }

  /** A report survives the trip, and nothing behind it is touched, exactly when its record count
      fits its byte and each of its records is sendable. */
  lemma {:induction false} ReportRoundTrip(rs: seq<Record>, rest: string)
    ensures DecodeReport(EncodeReport(rs) + rest) == Decoded(rs, rest)
            <==> |rs| <= 255 && forall i :: 0 <= i < |rs| ==> Sendable(rs[i])
  {
    hide DecodeRecords;
    DecodeCountByte(rs, rest);
    RecordsRoundTrip(rs, rest);
    DecodedCount(EncodeRecords(rs) + rest, |rs| % 256);
  }

  datatype Message = Message(connectTime: int, records: seq<Record>)

  predicate SendableMessage(m: Message) {
    && IsInt(m.connectTime) && |m.records| <= 255
    && forall i :: 0 <= i < |m.records| ==> Sendable(m.records[i])
  }

  function EncodeStream(ms: seq<Message>): string {
    if ms == [] then [] else EncodeFrame(ms[0].connectTime, ms[0].records) + EncodeStream(ms[1..])
  }

  /** `n` frames read one after the other. */
  function DecodeStream(s: string, n: nat): (seq<Message>, string)
    decreases n
  {
    if n == 0 || |s| < 4 then ([], s)
    else
      match DecodeReport(s[4..])
      case Malformed => ([], s)
      case Decoded(rs, rest) =>
        var (ms, rest') := DecodeStream(rest, n - 1);
        ([Message(DecodeInt(s[..4]), rs)] + ms, rest')
  }

  /** Frames written back to back are read back in order, each read taking exactly one frame. */
  lemma {:induction false} StreamRoundTrip(ms: seq<Message>, rest: string)
    requires forall i :: 0 <= i < |ms| ==> SendableMessage(ms[i])
    ensures DecodeStream(EncodeStream(ms) + rest, |ms|) == (ms, rest)
  {
    hide EncodeReport, DecodeReport, EncodeInt, DecodeInt, Sendable;
    var s := EncodeStream(ms) + rest;
    if ms == [] {
      assert s == rest;
    } else {
      var tail := EncodeStream(ms[1..]) + rest;
      assert s[..4] == EncodeInt(ms[0].connectTime);
      assert s[4..] == EncodeReport(ms[0].records) + tail;
      IntRoundTrip(ms[0].connectTime);
      ReportRoundTrip(ms[0].records, tail);
      StreamRoundTrip(ms[1..], rest);
      assert ms == [ms[0]] + ms[1..];
    }
  }

  // ----- Space

  function SizeOfRecords(rs: seq<Record>): (n: nat)
    ensures n == |EncodeRecords(rs)|
    ensures n >= 13 * |rs|
  {
    if rs == [] then 0 else 13 + |rs[0].kind| + SizeOfRecords(rs[1..])
  }

  /** The records fit the report buffer beside the count byte. */
  predicate Fits(rs: seq<Record>) {
    1 + SizeOfRecords(rs) <= MAX_REPORT_LEN
  }

  /** What the size of a report depends on: the names of its types. */
  function SizeOfNames(kinds: seq<string>): nat {
    if kinds == [] then 0 else 13 + |kinds[0]| + SizeOfNames(kinds[1..])
  }

  lemma {:induction false} SizeIsOfNames(kinds: seq<string>, t: Table)
    ensures SizeOfRecords(RecordsOf(kinds, t)) == SizeOfNames(kinds)
  {
    if kinds != [] {
      SizeIsOfNames(kinds[1..], t);
      assert RecordsOf(kinds, t)[1..] == RecordsOf(kinds[1..], t);
    }
  }

  /** A report fits if and only if it takes no more than 1024 bytes, and then it has so few records that
      their number fits the count byte. */
  lemma FittingCount(rs: seq<Record>)
    ensures Fits(rs) <==> |EncodeReport(rs)| <= 1024
    ensures Fits(rs) ==> |rs| <= 78
  {
  }

  lemma {:induction false} EncodeRecordsConcat(a: seq<Record>, b: seq<Record>)
    ensures EncodeRecords(a + b) == EncodeRecords(a) + EncodeRecords(b)
  {
    if a == [] {
      assert a + b == b;
    } else {
      assert (a + b)[1..] == a[1..] + b;
      EncodeRecordsConcat(a[1..], b);
    }
  }

  lemma EncodeRecordsPrefix(rs: seq<Record>, i: nat)
    requires i < |rs|
    ensures EncodeRecords(rs[..i + 1]) == EncodeRecords(rs[..i]) + EncodeRecord(rs[i])
    ensures SizeOfRecords(rs[..i + 1]) == SizeOfRecords(rs[..i]) + 13 + |rs[i].kind| <= SizeOfRecords(rs)
  {
    assert rs[..i + 1] == rs[..i] + [rs[i]] && rs == rs[..i + 1] + rs[i + 1..];
    EncodeRecordsConcat(rs[..i], [rs[i]]);
    EncodeRecordsConcat(rs[..i + 1], rs[i + 1..]);
  }
}
