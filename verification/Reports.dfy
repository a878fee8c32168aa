/** The figures a benchmark process keeps: one record per query type, and the connect times. */
module Reports {
  import opened CStrings

  // ----- Time

  datatype Time = Time(sec: int, usec: int)

  predicate IsTime(t: Time) {
    0 <= t.usec < 1_000_000
  }

  function Micros(t: Time): int {
    t.sec * 1_000_000 + t.usec
  }

  /** Milliseconds from one reading of the clock to another. The microseconds are divided as C does,
      toward zero, on their own. */
  function Elapsed(start: Time, end: Time): int {
    var us := end.usec - start.usec;
    (end.sec - start.sec) * 1000 + (if us >= 0 then us / 1000 else 0 - (0 - us) / 1000)
  }

  /** The time computed is that in whole milliseconds, rounded down, and one more if and only if the
      microseconds went down by other than whole milliseconds. */
  lemma ElapsedIs(start: Time, end: Time)
    ensures var us := end.usec - start.usec;
            Elapsed(start, end) ==
            (Micros(end) - Micros(start)) / 1000 + (if us < 0 && us % 1000 != 0 then 1 else 0)
  {
    var us := end.usec - start.usec;
    if us >= 0 {
      assert us == 1000 * (us / 1000) + us % 1000;
    } else {
      assert 0 - us == 1000 * ((0 - us) / 1000) + (0 - us) % 1000;
    }
  }

  /** So it is less than a millisecond off, either way, and never negative when the clock does not run
      backwards. */
  lemma ElapsedIsClose(start: Time, end: Time)
    requires IsTime(start) && IsTime(end)
    ensures var us := end.usec - start.usec;
            Elapsed(start, end) ==
            (Micros(end) - Micros(start)) / 1000 + (if us < 0 && us % 1000 != 0 then 1 else 0)
    ensures var err := 1000 * Elapsed(start, end) - (Micros(end) - Micros(start)); -1000 < err < 1000
    ensures Micros(start) <= Micros(end) ==> 0 <= Elapsed(start, end)
  {
    ElapsedIs(start, end);
  }

  /** A query that takes one microsecond is reported with a millisecond, if a second begins in it. */
  lemma RoundedUp()
    ensures var start, end := Time(0, 999_999), Time(1, 0);
            Micros(end) - Micros(start) == 1 && Elapsed(start, end) == 1
  {
  }

  // ----- Records

  /** The three counters of `Query_type_report`. */
  datatype Stats = Stats(numQueries: int, maxTime: int, minTime: int)

  const NO_STATS := Stats(0, 0, 0)

  /** The non-null entries of the `type_reports` map. */
  type Table = map<string, Stats>

  function Max(a: int, b: int): int {
    if a < b then b else a
  }

  function Min(a: int, b: int): int {
    if a > b then b else a
  }

  /** What one timed query does to its record. The guard is the one in the code: every query but
      the first of its type overwrites both times. */
  function Record1(s: Stats, qTime: int): Stats {
    if s.numQueries != 0 then Stats(s.numQueries + 1, qTime, qTime)
    else Stats(1, Max(s.maxTime, qTime), Min(s.minTime, qTime))
  }

  /** What the record a child sent does to the parent's record of the same type. */
  function Merge(s: Stats, r: Stats): Stats {
    Stats(s.numQueries + r.numQueries, Max(s.maxTime, r.maxTime), Min(s.minTime, r.minTime))
  }

  /** `Query_report::update`: a type without a record is ignored. */
  function RecordShot(t: Table, kind: string, qTime: int): Table {
    if kind in t then t[kind := Record1(t[kind], qTime)] else t
  }

  ghost predicate OrderlyTimes(s: Stats) {
    0 <= s.numQueries && 0 <= s.minTime <= s.maxTime
  }

  /** All the queries of one type, in the order they ended. */
  function RecordAll(s: Stats, qTimes: seq<int>): Stats {
    if qTimes == [] then s else Record1(RecordAll(s, qTimes[..|qTimes| - 1]), qTimes[|qTimes| - 1])
  }

  /** What a record holds after a run: exact count, but both times are those of the last query
      (and the minimum stays 0 when there was only one). */
  lemma {:induction false} RecordAfterRun(qTimes: seq<int>)
    requires forall i :: 0 <= i < |qTimes| ==> 0 <= qTimes[i]
    ensures var s := RecordAll(NO_STATS, qTimes);
            && OrderlyTimes(s) && s.numQueries == |qTimes|
            && (|qTimes| == 0 ==> s == NO_STATS)
            && (|qTimes| == 1 ==> s.maxTime == qTimes[0] && s.minTime == 0)
            && (|qTimes| >= 2 ==> s.maxTime == s.minTime == qTimes[|qTimes| - 1])
  {
    if qTimes != [] {
      RecordAfterRun(qTimes[..|qTimes| - 1]);
    }
  }

  ghost predicate IsMaximum(m: int, qTimes: seq<int>) {
    m in qTimes && forall q :: q in qTimes ==> q <= m
  }

  ghost predicate IsMinimum(m: int, qTimes: seq<int>) {
    m in qTimes && forall q :: q in qTimes ==> m <= q
  }

  /** When the printed times mean what their names say: the maximum exactly when no query took
      longer than the last one, the minimum exactly when none was shorter than the last one,
      where a single query must also have taken no measurable time. */
  lemma {:induction false} TimesMeanWhatTheySay(qTimes: seq<int>)
    requires qTimes != [] && forall i :: 0 <= i < |qTimes| ==> 0 <= qTimes[i]
    ensures var s, last := RecordAll(NO_STATS, qTimes), qTimes[|qTimes| - 1];
            && (IsMaximum(s.maxTime, qTimes) <==> forall q :: q in qTimes ==> q <= last)
            && (IsMinimum(s.minTime, qTimes) <==>
                (forall q :: q in qTimes ==> last <= q) && (|qTimes| == 1 ==> last == 0))
  {
    RecordAfterRun(qTimes);
    assert qTimes[|qTimes| - 1] in qTimes;
    assert |qTimes| == 1 ==> qTimes == [qTimes[0]];
  }

  /** 5 ms, then 1 ms: the report says the longest query took 1 ms. */
  lemma MaximumIsLost()
    ensures RecordAll(NO_STATS, [5, 1]).maxTime == 1
  {
    RecordAfterRun([5, 1]);
  }

  // ----- What a child reports and what the parent makes of it

  /** What one child sends: its own connect time (-1 if it never connected) and its table. */
  datatype Report = Report(connectTime: int, table: Table)

  /** The parent's side: its own table and the connect figures of `Client`. */
  datatype Tally = Tally(table: Table, totalConnect: int, minConnect: int, maxConnect: int, reported: int)

  /** A client connects: only the parent counts its own time, and only in the total. */
  function TallyConnect(t: Tally, elapsed: int): Tally {
    t.(totalConnect := t.totalConnect + elapsed, reported := t.reported + 1)
  }

  /** The parent reads a child's connect time. */
  function AbsorbConnect(t: Tally, c: int): Tally {
    t.(totalConnect := t.totalConnect + c,
       reported := t.reported + 1,
       maxConnect := Max(t.maxConnect, c),
       minConnect := if t.minConnect > c || t.minConnect == -1 then c else t.minConnect)
  }

  /** Two tables over the same query types, merged type by type. */
  function MergeTables(t: Table, u: Table): Table {
    map kind | kind in t :: if kind in u then Merge(t[kind], u[kind]) else t[kind]
  }

  /** The parent has read one whole report. */
  function Absorb(t: Tally, r: Report): Tally {
    AbsorbConnect(t, r.connectTime).(table := MergeTables(t.table, r.table))
  }

  /** Reports read one after the other. */
  function AbsorbAll(t: Tally, rs: seq<Report>): Tally {
    if rs == [] then t else Absorb(AbsorbAll(t, rs[..|rs| - 1]), rs[|rs| - 1])
  }

  // ----- The order of the reports does not matter

  /** No report says "never connected" beside one with a connect time. */
  ghost predicate Compatible(rs: seq<Report>) {
    || (forall r :: r in rs ==> r.connectTime == -1)
    || (forall r :: r in rs ==> 0 <= r.connectTime)
  }

  lemma AbsorbCommutes(t: Tally, a: Report, b: Report)
    requires Compatible([a, b])
    ensures Absorb(Absorb(t, a), b) == Absorb(Absorb(t, b), a)
  {
    assert a in [a, b] && b in [a, b];
    assert MergeTables(MergeTables(t.table, a.table), b.table) == MergeTables(MergeTables(t.table, b.table), a.table);
  }

  lemma {:induction false} AbsorbLast(t: Tally, rs: seq<Report>, r: Report)
    ensures AbsorbAll(t, rs + [r]) == Absorb(AbsorbAll(t, rs), r)
  {
    assert (rs + [r])[..|rs|] == rs;
  }

  /** Any one report may be read last instead. */
  lemma {:induction false} AbsorbMoveToEnd(t: Tally, xs: seq<Report>, x: Report, ys: seq<Report>)
    requires Compatible(xs + [x] + ys)
    ensures AbsorbAll(t, xs + [x] + ys) == AbsorbAll(t, xs + ys + [x])
    decreases |ys|
  {
    hide Absorb;
    if ys == [] {
      assert xs + [x] + ys == xs + ys + [x];
    } else {
      var init, y := ys[..|ys| - 1], ys[|ys| - 1];
      var all := xs + [x] + ys;
      assert all == (xs + [x] + init) + [y];
      assert xs + ys + [x] == ((xs + init) + [y]) + [x];
      assert Compatible([x, y]) && Compatible(xs + [x] + init) by {
        assert all[|xs|] == x && all[|all| - 1] == y;
        assert forall r :: r in xs + [x] + init ==> r in all;
      }
      ghost var before := AbsorbAll(t, xs + init);
      calc {
        AbsorbAll(t, (xs + [x] + init) + [y]);
        { AbsorbLast(t, xs + [x] + init, y); AbsorbMoveToEnd(t, xs, x, init); }
        Absorb(AbsorbAll(t, xs + init + [x]), y);
        { AbsorbLast(t, xs + init, x); }
        Absorb(Absorb(before, x), y);
        { AbsorbCommutes(before, x, y); }
        Absorb(Absorb(before, y), x);
        { AbsorbLast(t, xs + init, y); AbsorbLast(t, (xs + init) + [y], x); }
        AbsorbAll(t, ((xs + init) + [y]) + [x]);
      }
    }
  }

  /** Where a member of `ys` sits in it, and what is left without it. */
  lemma {:induction false} SplitAt(ys: seq<Report>, x: Report) returns (before: seq<Report>, after: seq<Report>)
    requires x in ys
    ensures ys == before + [x] + after
    ensures multiset(ys) == multiset(before + after + [x]) && multiset(before + after) == multiset(ys) - multiset{x}
  {
    var j :| 0 <= j < |ys| && ys[j] == x;
    before, after := ys[..j], ys[j + 1..];
    assert ys == before + [x] + after;
  }

  /** What is left of both orders without one report. */
  lemma {:induction false} RestOfOrders(
      init: seq<Report>, x: Report, ys: seq<Report>, before: seq<Report>, after: seq<Report>)
    requires multiset(init + [x]) == multiset(ys) && ys == before + [x] + after && Compatible(init + [x])
    requires multiset(before + after) == multiset(ys) - multiset{x}
    ensures Compatible(ys) && Compatible(init) && multiset(init) == multiset(before + after)
  {
    var xs := init + [x];
    forall r | r in ys ensures r in xs {
      assert r in multiset(ys);
    }
    assert forall r :: r in init ==> r in xs;
    assert multiset(init) == multiset(xs) - multiset{x};
  }

  /** Whatever order the reports come in, the parent ends up with the same figures. */
  lemma {:induction false} OrderIndependence(t: Tally, xs: seq<Report>, ys: seq<Report>)
    requires multiset(xs) == multiset(ys) && Compatible(xs)
    ensures AbsorbAll(t, xs) == AbsorbAll(t, ys)
    decreases |xs|
  {
    if xs == [] {
      assert |multiset(ys)| == 0;
    } else {
      hide Absorb, AbsorbAll, Compatible;
      var init, x := xs[..|xs| - 1], xs[|xs| - 1];
      assert xs == init + [x] && x in multiset(xs);
      var before, after := SplitAt(ys, x);
      RestOfOrders(init, x, ys, before, after);
      AbsorbMoveToEnd(t, before, x, after);
      AbsorbLast(t, before + after, x);
      OrderIndependence(t, init, before + after);
      AbsorbLast(t, init, x);
    }
  }

  ghost predicate IndependentOfOrder(t: Tally, rs: seq<Report>) {
    forall ys: seq<Report> :: multiset(ys) == multiset(rs) ==> AbsorbAll(t, ys) == AbsorbAll(t, rs)
  }

  /** The figures depend on the order of the reports exactly when a child that never connected
      reports beside one that did: the smallest connect time does. */
  lemma {:induction false} WhenOrderMatters(t: Tally, rs: seq<Report>)
    requires -1 <= t.minConnect && forall r :: r in rs ==> -1 <= r.connectTime
    ensures Compatible(rs) <==> IndependentOfOrder(t, rs)
  {
    if Compatible(rs) {
      forall ys: seq<Report> | multiset(ys) == multiset(rs) ensures AbsorbAll(t, ys) == AbsorbAll(t, rs) {
        OrderIndependence(t, rs, ys);
      }
    } else {
      var a :| a in rs && a.connectTime != -1;
      var b :| b in rs && b.connectTime == -1;
      var xs := SomeOrder(t, rs, a);
      var ys := SomeOrder(t, rs, b);
      assert AbsorbAll(t, xs) != AbsorbAll(t, ys);
    }
  }

  lemma {:induction false} SomeOrder(t: Tally, rs: seq<Report>, last: Report) returns (ys: seq<Report>)
    requires -1 <= t.minConnect && forall r :: r in rs ==> -1 <= r.connectTime
    requires last in rs
    ensures multiset(ys) == multiset(rs)
    ensures AbsorbAll(t, ys).minConnect == -1 <==> last.connectTime == -1
  {
    var before, after := SplitAt(rs, last);
    ys := before + after + [last];
    LastReportDecides(t, before + after, last, rs);
  }

  /** The smallest connect time reads "never connected" exactly if the last report said so. */
  lemma {:induction false} LastReportDecides(t: Tally, init: seq<Report>, last: Report, rs: seq<Report>)
    requires -1 <= t.minConnect && forall r :: r in rs ==> -1 <= r.connectTime
    requires multiset(rs) == multiset(init + [last])
    ensures AbsorbAll(t, init + [last]).minConnect == -1 <==> last.connectTime == -1
  {
    forall r: Report | r in init + [last] ensures -1 <= r.connectTime {
      assert r in multiset(rs);
    }
    assert forall r :: r in init ==> r in init + [last];
    MinConnectAtLeast(t, init);
    AbsorbLast(t, init, last);
    assert last in init + [last];
  }

  lemma {:induction false} MinConnectAtLeast(t: Tally, rs: seq<Report>)
    requires -1 <= t.minConnect && forall r :: r in rs ==> -1 <= r.connectTime
    ensures -1 <= AbsorbAll(t, rs).minConnect
  {
    if rs != [] {
      MinConnectAtLeast(t, rs[..|rs| - 1]);
    }
  }

  // ----- What the connect figures are

  function ConnectTimes(rs: seq<Report>): (cs: seq<int>)
    ensures |cs| == |rs| && forall i :: 0 <= i < |rs| ==> cs[i] == rs[i].connectTime
  {
    if rs == [] then [] else ConnectTimes(rs[..|rs| - 1]) + [rs[|rs| - 1].connectTime]
  }

  function Total(ns: seq<int>): int {
    if ns == [] then 0 else Total(ns[..|ns| - 1]) + ns[|ns| - 1]
  }

  /** The children's connect times end up in all three figures: as a sum, as a maximum beside the
      one the parent started with, and, if all have connected, as a minimum. If none has, the
      minimum stays -1. */
  lemma {:induction false} ConnectFigures(t: Tally, rs: seq<Report>)
    ensures var s, cs := AbsorbAll(t, rs), ConnectTimes(rs);
            && s.totalConnect == t.totalConnect + Total(cs)
            && IsMaximum(s.maxConnect, [t.maxConnect] + cs)
            && (t.minConnect == -1 && rs != [] && (forall q :: q in cs ==> 0 <= q) ==> IsMinimum(s.minConnect, cs))
            && (t.minConnect == -1 && (forall q :: q in cs ==> q == -1) ==> s.minConnect == -1)
  {
    hide MergeTables, IsMaximum, IsMinimum;
    if rs == [] {
      assert [t.maxConnect] + ConnectTimes(rs) == [t.maxConnect];
      ExtremeOfOne(t.maxConnect);
    } else {
      var init, c := rs[..|rs| - 1], rs[|rs| - 1].connectTime;
      ConnectFigures(t, init);
      var s, cs := AbsorbAll(t, init), ConnectTimes(init);
      assert ConnectTimes(rs) == cs + [c];
      InSnoc(cs, c);
      assert AbsorbAll(t, rs) == Absorb(s, rs[|rs| - 1]);
      TotalSnoc(cs, c);
      Assoc([t.maxConnect], cs, [c]);
      MaximumSnoc(s.maxConnect, [t.maxConnect] + cs, c);
      ExtremeOfOne(c);
      if init == [] {
        assert cs + [c] == [c] && s == t;
      } else if t.minConnect == -1 && forall q :: q in cs + [c] ==> 0 <= q {
        MinimumSnoc(s.minConnect, cs, c);
      }
    }
  }

  lemma InSnoc(ns: seq<int>, n: int)
    ensures forall q :: q in ns + [n] <==> q in ns || q == n
    ensures n in ns + [n] && forall q :: q in ns ==> q in ns + [n]
  {
  }

  lemma ExtremeOfOne(n: int)
    ensures IsMaximum(n, [n]) && IsMinimum(n, [n])
  {
  }

  lemma MaximumSnoc(m: int, ns: seq<int>, n: int)
    requires IsMaximum(m, ns)
    ensures IsMaximum(Max(m, n), ns + [n])
  {
    assert n in ns + [n] && forall q :: q in ns + [n] <==> q in ns || q == n;
  }

  lemma MinimumSnoc(m: int, ns: seq<int>, n: int)
    requires IsMinimum(m, ns) && 0 <= n && forall q :: q in ns ==> 0 <= q
    ensures IsMinimum(if m > n || m == -1 then n else m, ns + [n])
  {
    assert m in ns;
    assert n in ns + [n] && forall q :: q in ns + [n] <==> q in ns || q == n;
  }

  // ----- What the figures of a query type are

  /** One counter of one type, report by report. */
  function Column(rs: seq<Report>, kind: string, f: Stats -> int): (ns: seq<int>)
    requires forall r :: r in rs ==> kind in r.table
    ensures |ns| == |rs| && forall i :: 0 <= i < |rs| ==> ns[i] == f(rs[i].table[kind])
  {
    if rs == [] then []
    else
      assert forall r :: r in rs[..|rs| - 1] ==> r in rs;
      Column(rs[..|rs| - 1], kind, f) + [f(rs[|rs| - 1].table[kind])]
  }

  function Queries(s: Stats): int { s.numQueries }
  function Longest(s: Stats): int { s.maxTime }
  function Shortest(s: Stats): int { s.minTime }

  /** The parent's counters at the end: the sum of all the counts, and the extremes of all the times
      it and the children have, in whatever order the reports came in. */
  lemma {:induction false} TypeFigures(t: Tally, rs: seq<Report>, kind: string)
    requires kind in t.table && forall r :: r in rs ==> kind in r.table
    ensures kind in AbsorbAll(t, rs).table
    ensures var a, s := t.table[kind], AbsorbAll(t, rs).table[kind];
            && s.numQueries == a.numQueries + Total(Column(rs, kind, Queries))
            && IsMaximum(s.maxTime, [a.maxTime] + Column(rs, kind, Longest))
            && IsMinimum(s.minTime, [a.minTime] + Column(rs, kind, Shortest))
  {
    hide IsMaximum, IsMinimum;
    var a := t.table[kind];
    if rs == [] {
      ExtremeOfOne(a.maxTime);
      ExtremeOfOne(a.minTime);
      assert [a.maxTime] + [] == [a.maxTime] && [a.minTime] + [] == [a.minTime];
    } else {
      var init, r := rs[..|rs| - 1], rs[|rs| - 1];
      assert r in rs && forall q :: q in init ==> q in rs;
      TypeFigures(t, init, kind);
      var s, q := AbsorbAll(t, init).table[kind], r.table[kind];
      TotalSnoc(Column(init, kind, Queries), q.numQueries);
      Assoc([a.maxTime], Column(init, kind, Longest), [q.maxTime]);
      MaximumSnoc(s.maxTime, [a.maxTime] + Column(init, kind, Longest), q.maxTime);
      Assoc([a.minTime], Column(init, kind, Shortest), [q.minTime]);
      SmallestSnoc(s.minTime, [a.minTime] + Column(init, kind, Shortest), q.minTime);
    }
  }

  lemma TotalSnoc(ns: seq<int>, n: int)
    ensures Total(ns + [n]) == Total(ns) + n
  {
    assert (ns + [n])[..|ns|] == ns;
  }

  lemma SmallestSnoc(m: int, ns: seq<int>, n: int)
    requires IsMinimum(m, ns)
    ensures IsMinimum(Min(m, n), ns + [n])
  {
    assert n in ns + [n] && forall q :: q in ns + [n] <==> q in ns || q == n;
  }
}
