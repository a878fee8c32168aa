/** The keys of a `std::map<string, ...>` in iteration order. */
module KeyOrder {
  import opened CStrings

  predicate Less(a: string, b: string) {
    b != [] && (a == [] || a[0] < b[0] || (a[0] == b[0] && Less(a[1..], b[1..])))
  }

  lemma LessIsStrictOrder(a: string, b: string, c: string)
    ensures !(Less(a, b) && Less(b, a)) && !Less(a, a)
    ensures a == b || Less(a, b) || Less(b, a)
    ensures Less(a, b) && Less(b, c) ==> Less(a, c)
  {
    if a != [] && b != [] {
      LessIsStrictOrder(a[1..], b[1..], if c == [] then c else c[1..]);
      assert a[0] == b[0] && a[1..] == b[1..] ==> a == [a[0]] + a[1..] == b;
    }
  }

  /** The order is that of the first characters that are different; a text comes before those that it
      begins. */
  lemma {:induction false} LessIs(a: string, b: string)
    ensures Less(a, b) <==> a < b || DifferAt(a, b)
  {
    hide DifferAt;
    if a != [] && b != [] {
      LessIs(a[1..], b[1..]);
      assert a == [a[0]] + a[1..] && b == [b[0]] + b[1..];
      DifferNext(a, b);
    } else {
      NoDifference(a, b);
    }
  }

  /** Both have a character at some place, there that of `a` is less, and before they are the same. */
  ghost predicate DifferAt(a: string, b: string) {
    exists n: nat :: n < |a| && n < |b| && a[..n] == b[..n] && a[n] < b[n]
  }

  lemma NoDifference(a: string, b: string)
    requires a == [] || b == []
    ensures !DifferAt(a, b)
  {
  }

  lemma {:induction false} DifferNext(a: string, b: string)
    requires a != [] && b != []
    ensures DifferAt(a, b) <==> a[0] < b[0] || (a[0] == b[0] && DifferAt(a[1..], b[1..]))
  {
    if a[0] < b[0] {
      assert a[..0] == b[..0];
    } else if a[0] == b[0] && DifferAt(a[1..], b[1..]) {
      var n: nat :| n < |a| - 1 && n < |b| - 1 && a[1..][..n] == b[1..][..n] && a[1..][n] < b[1..][n];
      DifferLater(a, b, n);
    }
    if DifferAt(a, b) {
      var n: nat :| n < |a| && n < |b| && a[..n] == b[..n] && a[n] < b[n];
      if n > 0 {
        DifferEarlier(a, b, n);
      }
    }
  }

  lemma DifferLater(a: string, b: string, n: nat)
    requires n + 1 < |a| && n + 1 < |b| && a[0] == b[0] && a[1..][..n] == b[1..][..n] && a[1..][n] < b[1..][n]
    ensures DifferAt(a, b)
  {
    assert a[..n + 1] == [a[0]] + a[1..][..n] == [b[0]] + b[1..][..n] == b[..n + 1] && a[n + 1] < b[n + 1];
  }

  lemma DifferEarlier(a: string, b: string, n: nat)
    requires 0 < n < |a| && n < |b| && a[..n] == b[..n] && a[n] < b[n]
    ensures a[0] == b[0] && DifferAt(a[1..], b[1..])
  {
    assert a[0] == a[..n][0] == b[..n][0] == b[0];
    assert a[1..][..n - 1] == a[..n][1..] == b[..n][1..] == b[1..][..n - 1] && a[1..][n - 1] < b[1..][n - 1];
  }

  ghost predicate Ascending(keys: seq<string>) {
    forall i, j :: 0 <= i < j < |keys| ==> Less(keys[i], keys[j])
  }

  /** Where `operator[]` puts a key: in order, and only once. */
  function Insert(keys: seq<string>, key: string): (r: seq<string>)
    ensures forall k :: k in r <==> k in keys || k == key
  {
    if keys == [] then [key]
    else if keys[0] == key then keys
    else if Less(key, keys[0]) then [key] + keys
    else
      var r := [keys[0]] + Insert(keys[1..], key);
      assert forall k :: k in keys <==> k == keys[0] || k in keys[1..];
      r
  }

  lemma {:induction false} InsertAscending(keys: seq<string>, key: string)
    requires Ascending(keys)
    ensures Ascending(Insert(keys, key))
  {
    var r := Insert(keys, key);
    if keys == [] || keys[0] == key {
    } else if Less(key, keys[0]) {
      forall j | 0 <= j < |keys| ensures Less(key, keys[j]) {
        LessIsStrictOrder(key, keys[0], keys[j]);
      }
    } else {
      InsertAscending(keys[1..], key);
      LessIsStrictOrder(key, keys[0], keys[0]);
      forall j | 1 <= j < |r| ensures Less(r[0], r[j]) {
        assert r[j] in Insert(keys[1..], key);
      }
    }
  }

  lemma AscendingDistinct(keys: seq<string>)
    requires Ascending(keys)
    ensures Distinct(keys)
  {
    forall i, j | 0 <= i < j < |keys| ensures keys[i] != keys[j] {
      LessIsStrictOrder(keys[i], keys[j], keys[j]);
    }
  }
}

/** `Query_report`: the counters of one process, and how they cross the pipe. */
module QueryReports {
  import opened CStrings
  import opened Reports
  import opened Codec
  import opened KeyOrder

  /** The unread bytes of a pipe, for one process that has it to itself. */
  class Pipe {
    var data: string

    constructor ()
      ensures data == []
    {
      data := [];
    }

    /** `read`: as many bytes as there are, at most `n`, stored from `buf[0]` on. */
    method Read(buf: array<char>, n: nat) returns (len: nat)
      requires n <= buf.Length
      modifies this, buf
      ensures len == if n <= |old(data)| then n else |old(data)|
      ensures buf[..len] == old(data)[..len] && data == old(data)[len..]
    {
      len := if n <= |data| then n else |data|;
      forall i | 0 <= i < len {
        buf[i] := data[i];
      }
      data := data[len..];
    }

    method Write(bytes: string)
      modifies this
      ensures data == old(data) + bytes
    {
      data := data + bytes;
    }
  }

  /** `memcpy` into a buffer. */
  method Put(buf: array<char>, at: nat, bytes: string)
    requires at + |bytes| <= buf.Length
    modifies buf
    ensures buf[..at + |bytes|] == old(buf[..at]) + bytes
    ensures forall i :: at + |bytes| <= i < buf.Length ==> buf[i] == old(buf[i])
  {
    forall i | 0 <= i < |bytes| {
      buf[at + i] := bytes[i];
    }
  }

  /** The C string at the start of a buffer that holds a NUL. */
  method CString(buf: array<char>) returns (s: string)
    requires NUL in buf[..]
    ensures s == UpTo(buf[..], NUL)
  {
    var i := 0;
    while buf[i] != NUL
      invariant 0 <= i < buf.Length && NUL !in buf[..i]
      invariant NUL in buf[i..]
      decreases buf.Length - i
    {
      assert buf[i..] == [buf[i]] + buf[i + 1..] && buf[..i + 1] == buf[..i] + [buf[i]];
      i := i + 1;
    }
    s := buf[..i];
    assert buf[..][..i] == s;
    UpToFound(buf[..], i, NUL);
  }

  class QueryTypeReport {
    var numQueries: int
    var minTime: int
    var maxTime: int

    function View(): Stats
      reads this
    {
      Stats(numQueries, maxTime, minTime)
    }

    constructor ()
      ensures View() == NO_STATS
    {
      numQueries, minTime, maxTime := 0, 0, 0;
    }

    method Update(qTime: int)
      modifies this
      ensures View() == Record1(old(View()), qTime)
    {
      if numQueries != 0 {
        maxTime := qTime;
        minTime := maxTime;
      } else {
        if minTime > qTime { minTime := qTime; }
        if maxTime < qTime { maxTime := qTime; }
      }
      numQueries := numQueries + 1;
    }

    method MergeWith(readQueries: int, maxQTime: int, minQTime: int)
      modifies this
      ensures View() == Merge(old(View()), Stats(readQueries, maxQTime, minQTime))
    {
      numQueries := numQueries + readQueries;
      if maxTime < maxQTime { maxTime := maxQTime; }
      if minTime > minQTime { minTime := minQTime; }
    }
  }

  /** How a call to `UpdateFromFd` ends for its process. */
  datatype Ending = Returned | GaveUp | Dead

  /** One record stored in the report buffer. */
  method PutRecord(buf: array<char>, p: nat, kind: string, q: QueryTypeReport) returns (p': nat)
    requires 1 <= p && p + |kind| + 13 <= buf.Length
    modifies buf
    ensures p' == p + |kind| + 13
    ensures buf[1..p'] == old(buf[1..p]) + EncodeRecord(Record(kind, q.View()))
  {
    hide EncodeInt;
    ghost var done := buf[..p];
    var bytes := [LowByte(|kind|)] + kind
      + (EncodeInt(q.numQueries) + EncodeInt(q.maxTime) + EncodeInt(q.minTime));
    Put(buf, p, bytes);
    p' := p + |bytes|;
    assert buf[1..p'] == buf[..p'][1..] == done[1..] + bytes;
  }

  ghost function ObjectsIn(m: map<string, QueryTypeReport?>): set<QueryTypeReport> {
    set k | k in m && m[k] != null :: m[k]
  }

  ghost function ContentsOf(m: map<string, QueryTypeReport?>): Table
    reads ObjectsIn(m)
  {
    map k | k in m && m[k] != null :: m[k].View()
  }

  /** No two types share their counters. */
  ghost predicate NoAliases(m: map<string, QueryTypeReport?>) {
    forall j, k :: j in m && k in m && j != k && m[j] == m[k] ==> m[j] == null
  }

  /** The keys of the map, as it is walked. */
  ghost predicate KeysAre(m: map<string, QueryTypeReport?>, kinds: seq<string>) {
    Ascending(kinds) && forall k :: k in kinds <==> k in m
  }

  lemma NullEntry(m: map<string, QueryTypeReport?>, kinds: seq<string>, kind: string)
    requires KeysAre(m, kinds) && NoAliases(m) && kind !in m
    ensures var m' := m[kind := null];
            && KeysAre(m', Insert(kinds, kind)) && NoAliases(m')
            && ObjectsIn(m') == ObjectsIn(m) && ContentsOf(m') == ContentsOf(m)
  {
    hide Less, Ascending, QueryTypeReport.View;
    InsertAscending(kinds, kind);
    var m' := m[kind := null];
    assert forall k :: k in m ==> k in m' && m'[k] == m[k];
    assert ContentsOf(m').Keys == ContentsOf(m).Keys;
  }

  lemma {:induction false} InsertKnown(kinds: seq<string>, kind: string)
    requires Ascending(kinds) && kind in kinds
    ensures Insert(kinds, kind) == kinds
  {
    if kinds[0] != kind {
      var i :| 0 < i < |kinds| && kinds[i] == kind;
      LessIsStrictOrder(kinds[0], kind, kind);
      assert kinds[1..][i - 1] == kind;
      InsertKnown(kinds[1..], kind);
    }
  }

  lemma KnownEntry(m: map<string, QueryTypeReport?>, kind: string)
    requires kind in m
    ensures m[kind] != null <==> kind in ContentsOf(m)
    ensures m[kind] != null ==> ContentsOf(m)[kind] == m[kind].View()
  {
  }

  lemma NewEntry(m: map<string, QueryTypeReport?>, kinds: seq<string>, kind: string, q: QueryTypeReport)
    requires kind in m && m[kind] == null && KeysAre(m, kinds) && NoAliases(m) && q !in ObjectsIn(m)
    ensures KeysAre(m[kind := q], kinds) && NoAliases(m[kind := q])
    ensures ObjectsIn(m[kind := q]) == ObjectsIn(m) + {q}
    ensures ContentsOf(m[kind := q]) == ContentsOf(m)[kind := q.View()]
  {
    var m' := m[kind := q];
    assert m'[kind] == q && forall k :: k in m && k != kind ==> k in m' && m'[k] == m[k];
    assert ContentsOf(m').Keys == ContentsOf(m).Keys + {kind};
  }

  class QueryReport {
    var kinds: seq<string>                           // the keys of the map, in iteration order
    var typeReports: map<string, QueryTypeReport?>   // `operator[]` leaves nulls behind

    ghost predicate Valid()
      reads this
    {
      KeysAre(typeReports, kinds) && NoAliases(typeReports)
    }

    ghost function Objects(): set<QueryTypeReport>
      reads this
    {
      ObjectsIn(typeReports)
    }

    ghost function Contents(): Table
      reads this, Objects()
    {
      ContentsOf(typeReports)
    }

    /** No entry is null. */
    ghost predicate Complete()
      reads this
    {
      forall k :: k in typeReports ==> typeReports[k] != null
    }

    constructor ()
      ensures Valid() && Complete() && Contents() == map[] && kinds == [] && Objects() == {}
    {
      kinds, typeReports := [], map[];
    }

    /** `type_reports[kind]` of the C++ map: a key that was missing is now there, with a null. */
    method Lookup(kind: string) returns (q: QueryTypeReport?)
      requires Valid()
      modifies this
      ensures Valid() && Contents() == old(Contents()) && Objects() == old(Objects())
      ensures kinds == Insert(old(kinds), kind) && (old(Complete()) && kind in old(Contents()) ==> Complete())
      ensures kind in typeReports && q == typeReports[kind] && (q != null <==> kind in Contents())
      ensures typeReports == if kind in old(typeReports) then old(typeReports) else old(typeReports)[kind := null]
    {
      hide Less, Insert, Ascending, ObjectsIn, ContentsOf, NoAliases, QueryTypeReport.View;
      if kind !in typeReports {
        NullEntry(typeReports, kinds, kind);
        typeReports := typeReports[kind := null];
        kinds := Insert(kinds, kind);
      } else {
        InsertKnown(kinds, kind);
      }
      q := typeReports[kind];
      KnownEntry(typeReports, kind);
    }

    /** The part of `add_query_charge` that makes sure a type has counters. */
    method Ensure(kind: string)
      requires Valid()
      modifies this
      ensures Valid() && kinds == Insert(old(kinds), kind) && fresh(Objects() - old(Objects()))
      ensures old(Complete()) ==> Complete()
      ensures Contents() == if kind in old(Contents()) then old(Contents()) else old(Contents())[kind := NO_STATS]
    {
      hide Less, Ascending, Insert, KeysAre, NoAliases, QueryTypeReport.View;
      var q := Lookup(kind);
      if q == null {
        var counters := new QueryTypeReport();
        NewEntry(typeReports, kinds, kind, counters);
        typeReports := typeReports[kind := counters];
      }
    }

    method Update(kind: string, qTime: int)
      requires Valid()
      modifies this, Objects()
      ensures Valid() && Objects() == old(Objects()) && kinds == Insert(old(kinds), kind)
      ensures Contents() == RecordShot(old(Contents()), kind, qTime)
      ensures old(Complete()) && kind in old(Contents()) ==> Complete()
    {
      var q := Lookup(kind);
      if q != null {
        q.Update(qTime);
      }
    }

    /** The records in the order the map is walked. */
    ghost function Records(): (rs: seq<Record>)
      requires Valid() && Complete()
      reads this, Objects()
    {
      RecordsOf(kinds, Contents())
    }

    /** The records stored one after the other behind the byte for their number. */
    method FillBuffer(buf: array<char>) returns (fits: bool, p: nat)
      requires Valid() && Complete() && buf.Length == MAX_REPORT_LEN
      modifies buf
      ensures fits <==> Fits(Records())
      ensures fits ==> 1 <= p <= buf.Length && buf[1..p] == EncodeRecords(Records())
    {
      hide Less, Ascending, EncodeRecord, RecordsOf, QueryTypeReport.View;
      var i := 0;
      p := 1;
      ghost var t, rs := Contents(), Records();
      while i < |kinds|
        invariant 0 <= i <= |kinds| == |rs|
        invariant p == 1 + SizeOfRecords(rs[..i]) <= MAX_REPORT_LEN
        invariant buf[1..p] == EncodeRecords(rs[..i]) && Contents() == t
      {
        var q := typeReports[kinds[i]];
        RecordsAt(kinds, t, i);
        EncodeRecordsPrefix(rs, i);
        if p + |kinds[i]| + 12 < MAX_REPORT_LEN {
          p := PutRecord(buf, p, kinds[i], q);
          i := i + 1;
        } else {
          return false, p;
        }
      }
      assert rs[..i] == rs;
      fits := true;
    }

    /** `fd_send`: the report goes out whole if it fits the buffer; if not, the process dies
        before it has written anything. */
    method FdSend(pipe: Pipe) returns (sent: bool)
      requires Valid() && Complete()
      modifies pipe
      ensures sent <==> Fits(Records())
      ensures pipe.data == if sent then old(pipe.data) + EncodeReport(Records()) else old(pipe.data)
    {
      hide Less, Ascending, RecordsOf, QueryTypeReport.View, EncodeRecords, Fits;
      var buf := new char[MAX_REPORT_LEN];
      ghost var t, rs := Contents(), Records();
      assert Contents() == t;
      var p;
      sent, p := FillBuffer(buf);
      assert Contents() == t;
      if sent {
        buf[0] := LowByte(|kinds|);
        assert buf[..p] == [buf[0]] + buf[1..p];
        pipe.Write(buf[..p]);
      }
      assert Contents() == t;
    }

    /** One record merged into the counters of its type, if the type is known. */
    method MergeRecord(r: Record) returns (known: bool)
      requires Valid()
      modifies this, Objects()
      ensures Valid() && Objects() == old(Objects())
      ensures known <==> r.kind in old(Contents())
      ensures known ==> Contents() == old(Contents())[r.kind := Merge(old(Contents())[r.kind], r.stats)]
      ensures known && old(Complete()) ==> Complete()
    {
      hide Less, Ascending, Insert, Merge;
      var q := Lookup(r.kind);
      known := q != null;
      if known {
        q.MergeWith(r.stats.numQueries, r.stats.maxTime, r.stats.minTime);
      }
    }

    /** `update_from_fd`: the bytes on the pipe decide how it ends and what the counters become. */
    method UpdateFromFd(pipe: Pipe) returns (e: Ending)
      requires Valid()
      modifies this, Objects(), pipe
      ensures Valid() && Objects() == old(Objects()) && (old(Complete()) && e != Dead ==> Complete())
      ensures match CollectReport(old(Contents()), old(pipe.data))
              case Collected(t, rest) => e == Returned && Contents() == t && pipe.data == rest
              case EndOfPipe(t) => e == GaveUp && Contents() == t && pipe.data == []
              case Died => e == Dead
    {
      hide Less, Ascending, Insert, CollectRecords;
      var buf := new char[MAX_REPORT_LEN];
      ghost var t0, s0 := Contents(), pipe.data;
      var len := pipe.Read(buf, 1);
      assert Contents() == t0;
      if len == 0 {
        return GaveUp;
      }
      assert buf[0] == buf[..1][0] == s0[0];
      e := ReadRecords(pipe, buf, ByteValue(buf[0]));
    }

    /** The loop of `update_from_fd`. */
    method ReadRecords(pipe: Pipe, buf: array<char>, numRecs: nat) returns (e: Ending)
      requires Valid() && buf.Length == MAX_REPORT_LEN
      modifies this, Objects(), pipe, buf
      ensures Valid() && Objects() == old(Objects()) && (old(Complete()) && e != Dead ==> Complete())
      ensures match CollectRecords(old(Contents()), old(pipe.data), numRecs)
              case Collected(t, rest) => e == Returned && Contents() == t && pipe.data == rest
              case EndOfPipe(t) => e == GaveUp && Contents() == t && pipe.data == []
              case Died => e == Dead
    {
      hide Valid, Complete, ContentsOf, ObjectsIn, ParseRecord, Merge;
      ghost var t0, s0 := Contents(), pipe.data;
      var i := 0;
      while i < numRecs
        invariant 0 <= i <= numRecs
        invariant Valid() && Objects() == old(Objects()) && (old(Complete()) ==> Complete())
        invariant CollectRecords(t0, s0, numRecs) == CollectRecords(Contents(), pipe.data, numRecs - i)
      {
        var p, known := ReadAndMerge(pipe, buf);
        match p {
          case AtEnd => return GaveUp;
          case TooShort => return Dead;
          case Parsed(_, _) =>
            if !known {
              return Dead;
            }
        }
        i := i + 1;
      }
      return Returned;
    }

    /** One record off the pipe, merged if its type is known. */
    method ReadAndMerge(pipe: Pipe, buf: array<char>) returns (p: Parsed, known: bool)
      requires Valid() && buf.Length == MAX_REPORT_LEN
      modifies this, Objects(), pipe, buf
      ensures p == ParseRecord(old(pipe.data)) && (p.AtEnd? ==> pipe.data == []) && (p.Parsed? ==> pipe.data == p.rest)
      ensures known <==> p.Parsed? && p.record.kind in old(Contents())
      ensures Valid() && Objects() == old(Objects())
      ensures !p.Parsed? ==> Contents() == old(Contents())
      ensures known ==> var t, r := old(Contents()), p.record; Contents() == t[r.kind := Merge(t[r.kind], r.stats)]
      ensures old(Complete()) && (p.Parsed? ==> known) ==> Complete()
    {
      hide Less, Ascending, Insert, ParseRecord, Merge;
      ghost var t := Contents();
      p := ReadRecord(pipe, buf);
      assert Contents() == t;
      known := false;
      if p.Parsed? {
        known := MergeRecord(p.record);
      }
    }
  }

  /** One record off the pipe: its length byte, then name and counters in one read. */
  method ReadRecord(pipe: Pipe, buf: array<char>) returns (p: Parsed)
    requires buf.Length == MAX_REPORT_LEN
    modifies pipe, buf
    ensures p == ParseRecord(old(pipe.data))
    ensures p.Parsed? ==> pipe.data == p.rest
    ensures p.AtEnd? ==> pipe.data == []
  {
    hide DecodeStats, UpTo;
    ghost var s := pipe.data;
    var got := pipe.Read(buf, 1);
    if got == 0 {
      return AtEnd;
    }
    assert buf[0] == buf[..1][0] == s[0];
    var len := ByteValue(buf[0]);
    got := pipe.Read(buf, len + 12);
    if got < len + 12 {
      return TooShort;
    }
    ghost var body := buf[..len + 12];
    assert body == s[1..][..len + 12] == s[1..len + 13];
    assert buf[..len] == body[..len] == s[1..len + 1];
    assert buf[len..len + 12] == body[len..] == s[len + 1..len + 13];
    var r := TakeRecord(buf, len);
    p := Parsed(r, pipe.data);
  }

  lemma Part(s: string, at: nat, n: nat, from: nat, to: nat)
    requires from <= to <= n && at + n <= |s|
    ensures s[at..at + n][from..to] == s[at + from..at + to]
  {
    var t := s[at..at + n];
    assert |t[from..to]| == to - from;
    forall i | 0 <= i < to - from ensures t[from..to][i] == s[at + from..at + to][i] {
      assert t[from..to][i] == t[from + i] == s[at + (from + i)];
    }
  }

  /** The record in the buffer. Its first counter is saved and then overwritten with zeros, which
      end the name. */
  method TakeRecord(buf: array<char>, len: nat) returns (r: Record)
    requires len + 12 <= buf.Length
    modifies buf
    ensures r == Record(UpTo(old(buf[..len]), NUL), DecodeStats(old(buf[len..len + 12])))
  {
    hide DecodeInt;
    ghost var all, name, ints := buf[..], buf[..len], buf[len..len + 12];
    Part(all, len, 12, 0, 4);
    Part(all, len, 12, 4, 8);
    Part(all, len, 12, 8, 12);
    assert ints[8..12] == ints[8..];
    var readNumQueries := DecodeInt(buf[len..len + 4]);
    assert buf[len..len + 4] == ints[..4];
    buf[len], buf[len + 1], buf[len + 2], buf[len + 3] := NUL, NUL, NUL, NUL;
    assert buf[len + 4..len + 8] == all[len + 4..len + 8] && buf[len + 8..len + 12] == all[len + 8..len + 12];
    var stats := Stats(readNumQueries, DecodeInt(buf[len + 4..len + 8]), DecodeInt(buf[len + 8..len + 12]));
    assert buf[..] == name + buf[len..] && buf[len] == NUL;
    UpToAppend(name, buf[len..], NUL);
    var kind := CString(buf);
    r := Record(kind, stats);
  }
}
