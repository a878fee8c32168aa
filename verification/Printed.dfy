/** What the printed figures of a collection say about the queries and connects that took place. */
module Printed {
  import opened Reports
  import opened Collection
  import opened CollectionTheorems
  import opened History

  // ----- The queries of all processes

  function Flat(ts: seq<seq<int>>): seq<int> {
    if ts == [] then [] else ts[0] + Flat(ts[1..])
  }

  lemma {:induction false} InFlat(ts: seq<seq<int>>, q: int)
    ensures q in Flat(ts) <==> exists i :: 0 <= i < |ts| && q in ts[i]
  {
    if ts != [] {
      InFlat(ts[1..], q);
      assert forall i :: 1 <= i < |ts| ==> ts[i] == ts[1..][i - 1];
      assert q in Flat(ts[1..]) ==> exists i :: 1 <= i < |ts| && q in ts[i];
    }
  }

  lemma {:induction false} FlatLength(ts: seq<seq<int>>, k: nat)
    requires forall i :: 0 <= i < |ts| ==> |ts[i]| == k
    ensures |Flat(ts)| == |ts| * k
  {
    if ts != [] {
      FlatLength(ts[1..], k);
      OneShareMore(|ts| - 1, k);
    }
  }

  /** What process `i` has done, 0 being the parent. */
  function PastOf(s: State, i: nat): seq<Event>
    requires i <= |s.past|
  {
    if i == 0 then s.ownPast else s.past[i - 1]
  }

  /** For each process how long its queries of a type took: those `pre` that the parent fired before
      the fork, then its own. */
  function TimesOfAll(pre: seq<int>, s: State, kind: string): (ts: seq<seq<int>>)
    ensures |ts| == |s.past| + 1
    ensures forall i :: 0 <= i < |ts| ==> ts[i] == pre + QueryTimes(PastOf(s, i), kind)
  {
    seq(|s.past| + 1, i requires 0 <= i <= |s.past| => pre + QueryTimes(PastOf(s, i), kind))
  }

  function Last(ns: seq<int>): int
    requires ns != []
  {
    ns[|ns| - 1]
  }

  /** Some process's last query took at least as long as every query of any process. */
  ghost predicate SomeLastIsLongest(ts: seq<seq<int>>) {
    exists i :: 0 <= i < |ts| && ts[i] != [] && forall q :: q in Flat(ts) ==> q <= Last(ts[i])
  }

  ghost predicate SomeLastIsShortest(ts: seq<seq<int>>) {
    exists i :: 0 <= i < |ts| && ts[i] != [] && forall q :: q in Flat(ts) ==> Last(ts[i]) <= q
  }

  ghost predicate AreLasts(ns: seq<int>, ts: seq<seq<int>>) {
    |ns| == |ts| && forall i :: 0 <= i < |ts| ==> ts[i] != [] && ns[i] == Last(ts[i])
  }

  lemma {:induction false} MaximumOfLasts(ts: seq<seq<int>>, ns: seq<int>, m: int)
    requires AreLasts(ns, ts) && IsMaximum(m, ns)
    ensures IsMaximum(m, Flat(ts)) <==> SomeLastIsLongest(ts)
  {
    var j :| 0 <= j < |ns| && ns[j] == m;
    InFlat(ts, m);
    assert m in ts[j];
    if SomeLastIsLongest(ts) {
      var i :| 0 <= i < |ts| && ts[i] != [] && forall q :: q in Flat(ts) ==> q <= Last(ts[i]);
      assert ns[i] in ns;
    }
  }

  lemma {:induction false} MinimumOfLasts(ts: seq<seq<int>>, ns: seq<int>, m: int)
    requires AreLasts(ns, ts) && IsMinimum(m, ns)
    ensures IsMinimum(m, Flat(ts)) <==> SomeLastIsShortest(ts)
  {
    var j :| 0 <= j < |ns| && ns[j] == m;
    InFlat(ts, m);
    assert m in ts[j];
    if SomeLastIsShortest(ts) {
      var i :| 0 <= i < |ts| && ts[i] != [] && forall q :: q in Flat(ts) ==> Last(ts[i]) <= q;
      assert ns[i] in ns;
    }
  }

  // ----- The printed times of a type

  /** The counters of process `i` when all have been collected. */
  function TableOf(s: State, i: nat): Table
    requires i <= |s.children| && forall c :: c in s.children ==> c.Reaped?
  {
    if i == 0 then s.own.table else s.children[i - 1].report.table
  }

  /** All processes have counters of a type. */
  ghost predicate Counted(s: State, kind: string) {
    && (forall c :: c in s.children ==> c.Reaped?)
    && forall i :: 0 <= i <= |s.children| ==> kind in TableOf(s, i)
  }

  /** The records of all processes. */
  ghost function Records(s: State, kind: string): (rs: seq<Stats>)
    requires Counted(s, kind)
    ensures |rs| == |s.children| + 1
    ensures forall i :: 0 <= i < |rs| ==> rs[i] == TableOf(s, i)[kind]
  {
    seq(|s.children| + 1, i requires 0 <= i <= |s.children| => TableOf(s, i)[kind])
  }

  /** At the end each process has done its program, and its counters are what that made of them. */
  lemma {:induction false} AllDone(w: Setup, n: nat, s: State)
    requires GoodSetup(w) && Reachable(w, n, s) && s.parent.Done?
    ensures (forall c :: c in s.children ==> c.Reaped?) && |s.past| == |s.children| == n
    ensures forall i :: 0 <= i <= n ==>
              var es := PastOf(s, i); Timed(es) && Ops(es) == w.program && TableOf(s, i) == Replay(w.start, es).table
    ensures forall i :: 0 <= i < n ==> s.children[i].report.connectTime == LastConnect(w.connectTime, s.past[i])
  {
    hide Reachable, Inv, AbsorbAll, GoodProgram, Replay, LastConnect, Timed, Ops;
    ReachablePast(w, n, s);
    CollectionComplete(w, n, s);
    forall i | 0 <= i < n ensures ChildPast(w, s.children[i], s.past[i]) && s.children[i] in s.children {
    }
  }

  /** What the records are: those of the query times. */
  lemma {:induction false} RecordsAreOfTimes(w: Setup, n: nat, s: State, kind: string, pre: seq<int>)
    requires GoodSetup(w) && Reachable(w, n, s) && s.parent.Done? && kind in w.kinds
    requires w.start.table[kind] == RecordAll(NO_STATS, pre) && forall q :: q in pre ==> 0 <= q
    ensures |s.past| == |s.children| == n && Counted(s, kind)
    ensures var ts, rs := TimesOfAll(pre, s, kind), Records(s, kind);
            forall i :: 0 <= i <= n ==>
              && rs[i] == RecordAll(NO_STATS, ts[i]) && |ts[i]| == |pre| + Shots(w.program, kind)
              && forall q :: q in ts[i] ==> 0 <= q
  {
    hide Reachable, GoodSetup, RecordAll, Replay, QueryTimes, LastConnect, Timed, Ops, Shots, TableOf;
    AllDone(w, n, s);
    KindAtStart(w, kind);
    forall i | 0 <= i <= n
      ensures var es := PastOf(s, i);
              && kind in TableOf(s, i) && TableOf(s, i)[kind] == RecordAll(NO_STATS, pre + QueryTimes(es, kind))
              && |QueryTimes(es, kind)| == Shots(w.program, kind) && forall q :: q in QueryTimes(es, kind) ==> 0 <= q
    {
      OneRecord(w, PastOf(s, i), kind, pre);
    }
  }

  lemma KindAtStart(w: Setup, kind: string)
    requires GoodSetup(w) && kind in w.kinds
    ensures kind in w.start.table
  {
  }

  lemma {:induction false} OneRecord(w: Setup, es: seq<Event>, kind: string, pre: seq<int>)
    requires Timed(es) && Ops(es) == w.program && kind in w.start.table
    requires w.start.table[kind] == RecordAll(NO_STATS, pre)
    ensures kind in Replay(w.start, es).table
    ensures Replay(w.start, es).table[kind] == RecordAll(NO_STATS, pre + QueryTimes(es, kind))
    ensures |QueryTimes(es, kind)| == Shots(w.program, kind) && forall q :: q in QueryTimes(es, kind) ==> 0 <= q
  {
    ReplayRecord(w.start, es, kind);
    RecordAllConcat(NO_STATS, pre, QueryTimes(es, kind));
    TimesCounted(es, kind);
  }

  function Map(rs: seq<Stats>, f: Stats -> int): (ns: seq<int>)
    ensures |ns| == |rs| && forall i :: 0 <= i < |rs| ==> ns[i] == f(rs[i])
  {
    seq(|rs|, i requires 0 <= i < |rs| => f(rs[i]))
  }

  /** The printed times are the extremes of the records. */
  lemma {:induction false} ExtremesOfRecords(w: Setup, n: nat, s: State, kind: string)
    requires GoodSetup(w) && Reachable(w, n, s) && s.parent.Done? && kind in w.kinds
    requires Counted(s, kind)
    ensures kind in s.tally.table
    ensures IsMaximum(s.tally.table[kind].maxTime, Map(Records(s, kind), Longest))
    ensures IsMinimum(s.tally.table[kind].minTime, Map(Records(s, kind), Shortest))
  {
    hide Reachable, GoodSetup, IsMaximum, IsMinimum;
    TimesReported(w, n, s, kind);
    var rs, own := ReportsOf(s.children), s.own.table[kind];
    assert Map(Records(s, kind), Longest) == [own.maxTime] + Column(rs, kind, Longest);
    assert Map(Records(s, kind), Shortest) == [own.minTime] + Column(rs, kind, Shortest);
  }

  /** When the printed times of a type mean what their names say, over all interleavings and all
      query times. The maximum is the longest query of all processes if and only if some process
      ended with a query as long; the minimum is the shortest if and only if some process ended with
      one as short, or, where each process has only one query, if some query took no time. The times
      `pre` are those of the queries before the fork, which each process has inherited. */
  lemma {:induction false} PrintedTimes(w: Setup, n: nat, s: State, kind: string, pre: seq<int>)
    requires GoodSetup(w) && Reachable(w, n, s) && s.parent.Done? && kind in w.kinds
    requires w.start.table[kind] == RecordAll(NO_STATS, pre) && forall q :: q in pre ==> 0 <= q
    ensures kind in s.tally.table
    ensures var r, ts := s.tally.table[kind], TimesOfAll(pre, s, kind);
            && (IsMaximum(r.maxTime, Flat(ts)) <==> SomeLastIsLongest(ts))
            && (IsMinimum(r.minTime, Flat(ts)) <==>
                if |pre| + Shots(w.program, kind) == 1 then 0 in Flat(ts) else SomeLastIsShortest(ts))
  {
    hide Reachable, GoodSetup, IsMaximum, IsMinimum, RecordAll, Flat, SomeLastIsLongest, SomeLastIsShortest, Records,
      Counted, TimesOfAll, Map;
    RecordsAreOfTimes(w, n, s, kind, pre);
    ExtremesOfRecords(w, n, s, kind);
    ExtremesOfTimes(TimesOfAll(pre, s, kind), Records(s, kind), s.tally.table[kind], |pre| + Shots(w.program, kind));
  }

  /** The extremes of records of so many query times each. */
  lemma {:induction false} ExtremesOfTimes(ts: seq<seq<int>>, rs: seq<Stats>, r: Stats, each: nat)
    requires |ts| == |rs|
    requires forall i :: 0 <= i < |ts| ==>
               rs[i] == RecordAll(NO_STATS, ts[i]) && |ts[i]| == each && forall q :: q in ts[i] ==> 0 <= q
    requires IsMaximum(r.maxTime, Map(rs, Longest)) && IsMinimum(r.minTime, Map(rs, Shortest))
    ensures IsMaximum(r.maxTime, Flat(ts)) <==> SomeLastIsLongest(ts)
    ensures IsMinimum(r.minTime, Flat(ts)) <==> if each == 1 then 0 in Flat(ts) else SomeLastIsShortest(ts)
  {
    if each == 0 {
      NoTimes(ts);
      return;
    }
    hide IsMaximum, IsMinimum, RecordAll, Flat, SomeLastIsLongest, SomeLastIsShortest;
    var longest, shortest := Map(rs, Longest), Map(rs, Shortest);
    forall i | 0 <= i < |ts|
      ensures longest[i] == Last(ts[i]) && shortest[i] == if each == 1 then 0 else Last(ts[i])
    {
      assert forall j :: 0 <= j < |ts[i]| ==> ts[i][j] in ts[i];
      RecordAfterRun(ts[i]);
    }
    MaximumOfLasts(ts, longest, r.maxTime);
    if each == 1 {
      SingleQueries(ts, shortest, r.minTime);
    } else {
      MinimumOfLasts(ts, shortest, r.minTime);
    }
  }

  lemma {:induction false} NoTimes(ts: seq<seq<int>>)
    requires forall i :: 0 <= i < |ts| ==> ts[i] == []
    ensures Flat(ts) == [] && !SomeLastIsLongest(ts) && !SomeLastIsShortest(ts)
  {
    FlatLength(ts, 0);
  }

  lemma {:induction false} SingleQueries(ts: seq<seq<int>>, ns: seq<int>, m: int)
    requires (forall i :: 0 <= i < |ns| ==> ns[i] == 0) && IsMinimum(m, ns)
    requires forall i :: 0 <= i < |ts| ==> forall q :: q in ts[i] ==> 0 <= q
    ensures IsMinimum(m, Flat(ts)) <==> 0 in Flat(ts)
  {
    forall q | q in Flat(ts) ensures 0 <= q {
      InFlat(ts, q);
    }
  }

  /** The queries that a completed run has fired since the fork. */
  lemma {:induction false} QueriesFired(w: Setup, n: nat, s: State, kind: string)
    requires GoodSetup(w) && Reachable(w, n, s) && s.parent.Done?
    ensures |Flat(TimesOfAll([], s, kind))| == (n + 1) * Shots(w.program, kind)
  {
    hide Reachable, GoodSetup, Replay, QueryTimes, LastConnect, Flat, Timed, Ops, Shots, TableOf;
    AllDone(w, n, s);
    var ts := TimesOfAll([], s, kind);
    forall i | 0 <= i < |ts| ensures |ts[i]| == Shots(w.program, kind) {
      TimesCounted(PastOf(s, i), kind);
    }
    FlatLength(ts, Shots(w.program, kind));
  }

  // ----- The printed connect times

  /** Each connect took no time, or no longer than some child's reported one. */
  ghost predicate NoneAbove(all: seq<int>, cs: seq<int>) {
    forall p :: p in all ==> p == 0 || exists c :: c in cs && p <= c
  }

  /** Each connect took no shorter than some child's reported one. */
  ghost predicate NoneBelow(all: seq<int>, cs: seq<int>) {
    forall p :: p in all ==> exists c :: c in cs && c <= p
  }

  /** The connects of each child since the fork. */
  function ChildConnects(s: State): (ts: seq<seq<int>>)
    ensures |ts| == |s.past| && forall i :: 0 <= i < |ts| ==> ts[i] == OwnConnects(s.past[i])
  {
    seq(|s.past|, i requires 0 <= i < |s.past| => OwnConnects(s.past[i]))
  }

  /** Every connect of any process: those `pre` of the parent before the fork, its own since, and the
      children's. */
  function AllConnects(pre: seq<int>, s: State): seq<int> {
    pre + OwnConnects(s.ownPast) + Flat(ChildConnects(s))
  }

  /** The last of some connect times, -1 if there is none. */
  function LastTime(ns: seq<int>): int {
    if ns == [] then -1 else Last(ns)
  }

  /** A parent that has connected as `pre` says, beginning with the figures of a new client. */
  ghost predicate Connected(w: Setup, pre: seq<int>) {
    && w.start.minConnect == -1 && w.start.maxConnect == 0
    && w.start.totalConnect == Total(pre) && w.start.reported == |pre| && w.connectTime == LastTime(pre)
    && forall p :: p in pre ==> 0 <= p
  }

  /** The connect figures of a completed run. A child reports its last connect, or the parent's last
      one before the fork, or -1. The total has all connects of the parent and what the children
      report. If there was any connect, the printed extremes are those of all connects if and only
      if each took no longer (or no time), and no shorter, than one that a child reports. If there was
      none, each child is counted as a client all the same, with a time of -1. */
  lemma {:induction false} PrintedConnectTimes(w: Setup, n: nat, s: State, pre: seq<int>)
    requires GoodSetup(w) && Reachable(w, n, s) && s.parent.Done? && Connected(w, pre)
    ensures (forall c :: c in s.children ==> c.Reaped?) && |s.past| == |s.children| == n
    ensures var own, cs, all := OwnConnects(s.ownPast), ConnectTimes(ReportsOf(s.children)), AllConnects(pre, s);
            && |own| == Connects(w.program) && |cs| == n
            && (forall i :: 0 <= i < n ==> cs[i] == LastTime(pre + OwnConnects(s.past[i])))
            && s.tally.totalConnect == Total(pre) + Total(own) + Total(cs)
            && s.tally.reported == |pre| + |own| + n
            && (all != [] ==>
                  && (IsMaximum(s.tally.maxConnect, all) <==> NoneAbove(all, cs))
                  && (IsMinimum(s.tally.minConnect, all) <==> NoneBelow(all, cs)))
            && (all == [] ==>
                  s.tally.maxConnect == 0 && s.tally.minConnect == -1 && s.tally.totalConnect == 0 - n)
  {
    hide Reachable, GoodSetup, Inv, AbsorbAll, Replay, LastConnect, OwnConnects, IsMaximum, IsMinimum, Total,
      Timed, Ops, Connects, ReportsOf, ConnectTimes, TableOf, NoneAbove, NoneBelow, AllConnects, Connected;
    AllDone(w, n, s);
    ConnectTimesReported(w, n, s);
    OwnConnectsCounted(w, n, s);
    StartsConnected(w, pre);
    var cs, all := ConnectTimes(ReportsOf(s.children)), AllConnects(pre, s);
    forall i | 0 <= i < n ensures cs[i] == LastTime(pre + OwnConnects(s.past[i])) {
      LastConnectIs(pre, s.past[i]);
    }
    AllConnectsAre(w, n, s, pre, cs);
    if all != [] {
      MaximumOfAll(s.tally.maxConnect, all, cs);
      MinimumOfAll(s.tally.minConnect, all, cs);
    } else {
      NobodyConnected(s.tally.maxConnect, cs);
      assert pre == [] && OwnConnects(s.ownPast) == [];
    }
  }

  lemma StartsConnected(w: Setup, pre: seq<int>)
    requires Connected(w, pre)
    ensures w.start.minConnect == -1 && w.start.maxConnect == 0 && w.connectTime == LastTime(pre)
    ensures w.start.totalConnect == Total(pre) && w.start.reported == |pre|
    ensures w.connectTime >= 0 <==> pre != []
  {
    assert pre != [] ==> Last(pre) in pre;
  }

  lemma {:induction false} LastConnectIs(pre: seq<int>, es: seq<Event>)
    ensures LastConnect(LastTime(pre), es) == LastTime(pre + OwnConnects(es))
  {
    if es == [] {
      assert pre + [] == pre;
    } else {
      LastConnectIs(pre, es[..|es| - 1]);
      var own := OwnConnects(es[..|es| - 1]);
      assert own + [] == own;
    }
  }

  /** When there were connects, and that what the children report is among them. */
  lemma {:induction false} AllConnectsAre(w: Setup, n: nat, s: State, pre: seq<int>, cs: seq<int>)
    requires GoodSetup(w) && Reachable(w, n, s) && s.parent.Done? && Connected(w, pre)
    requires |s.past| == |cs| == n && forall i :: 0 <= i < n ==> cs[i] == LastTime(pre + OwnConnects(s.past[i]))
    ensures var all := AllConnects(pre, s);
            && (all != [] <==> Connects(w.program) > 0 || pre != [])
            && (forall p :: p in all ==> 0 <= p) && (all != [] ==> forall c :: c in cs ==> c in all)
  {
    hide Reachable, GoodSetup, OwnConnects, LastConnect, Timed, Ops, Connects, TableOf, Flat, Replay, Total;
    AllDone(w, n, s);
    OwnConnectsCounted(w, n, s);
    var ts := ChildConnects(s);
    forall i | 0 <= i < n ensures |ts[i]| == Connects(w.program) && forall p :: p in ts[i] ==> 0 <= p {
      assert PastOf(s, i + 1) == s.past[i];
      TimesCounted(s.past[i], "");
    }
    FlatLength(ts, Connects(w.program));
    forall p: int ensures p in Flat(ts) <==> exists i :: 0 <= i < |ts| && p in ts[i] {
      InFlat(ts, p);
    }
    forall c | c in cs && (Connects(w.program) > 0 || pre != []) ensures c in pre || c in Flat(ts) {
      var i :| 0 <= i < n && cs[i] == c;
      if ts[i] == [] {
        assert pre + ts[i] == pre && Last(pre) in pre;
      } else {
        assert Last(pre + ts[i]) == Last(ts[i]) && Last(ts[i]) in ts[i];
      }
    }
  }

  lemma {:induction false} NobodyConnected(m: int, cs: seq<int>)
    requires IsMaximum(m, [0] + cs) && forall c :: c in cs ==> c == -1
    ensures m == 0 && Total(cs) == 0 - |cs| && Total([]) == 0
  {
    assert 0 in [0] + cs && (m in cs || m == 0);
    assert forall i :: 0 <= i < |cs| ==> cs[i] in cs;
    TotalOfNone(cs);
  }

  lemma {:induction false} TotalOfNone(cs: seq<int>)
    requires forall i :: 0 <= i < |cs| ==> cs[i] == -1
    ensures Total(cs) == 0 - |cs|
  {
    if cs != [] {
      TotalOfNone(cs[..|cs| - 1]);
    }
  }

  lemma {:induction false} OwnConnectsCounted(w: Setup, n: nat, s: State)
    requires GoodSetup(w) && Reachable(w, n, s) && s.parent.Done?
    ensures var own := OwnConnects(s.ownPast);
            && |own| == Connects(w.program) && (forall p :: p in own ==> 0 <= p)
            && s.own.totalConnect == w.start.totalConnect + Total(own)
            && s.tally.reported == w.start.reported + |own| + n
  {
    hide Reachable, GoodSetup, Inv, Replay, LastConnect, OwnConnects, Total, Timed, Ops, Connects, TableOf;
    EveryClientCounted(w, n, s);
    AllDone(w, n, s);
    ReachablePast(w, n, s);
    assert PastOf(s, 0) == s.ownPast;
    TimesCounted(s.ownPast, "");
    ReplayConnects(w.start, s.ownPast);
  }

  lemma {:induction false} EveryClientCounted(w: Setup, n: nat, s: State)
    requires GoodSetup(w) && Reachable(w, n, s) && s.parent.Done?
    ensures s.tally.reported == s.own.reported + n
  {
    hide Reachable, Inv, GoodSetup;
    CollectionComplete(w, n, s);
    AbsorbedCounted(s.own, s.log);
  }

  lemma {:induction false} AbsorbedCounted(t: Tally, rs: seq<Report>)
    ensures AbsorbAll(t, rs).reported == t.reported + |rs|
  {
    if rs != [] {
      AbsorbedCounted(t, rs[..|rs| - 1]);
    }
  }

  lemma {:induction false} MaximumOfAll(m: int, all: seq<int>, cs: seq<int>)
    requires all != [] && (forall p :: p in all ==> 0 <= p) && (forall c :: c in cs ==> c in all)
    requires IsMaximum(m, [0] + cs)
    ensures IsMaximum(m, all) <==> NoneAbove(all, cs)
  {
    assert all[0] in all && 0 in [0] + cs;
    assert forall q :: q in [0] + cs <==> q == 0 || q in cs;
    if NoneAbove(all, cs) {
      forall p | p in all ensures p <= m {
        if p != 0 {
          var c :| c in cs && p <= c;
        }
      }
      assert m == 0 ==> all[0] == 0;
    } else {
      var p :| p in all && p != 0 && forall c :: c in cs ==> c < p;
      assert m < p;
    }
  }

  lemma {:induction false} MinimumOfAll(m: int, all: seq<int>, cs: seq<int>)
    requires all != [] && (forall p :: p in all ==> 0 <= p) && (forall c :: c in cs ==> c in all)
    requires cs != [] ==> IsMinimum(m, cs)
    requires cs == [] ==> m == -1
    ensures IsMinimum(m, all) <==> NoneBelow(all, cs)
  {
    assert all[0] in all;
    if NoneBelow(all, cs) {
      var c :| c in cs && c <= all[0];
      forall p | p in all ensures m <= p {
        var d :| d in cs && d <= p;
      }
    } else {
      var p :| p in all && forall c :: c in cs ==> p < c;
      assert cs != [] ==> p < m;
    }
  }

  // ----- Reports of one collection

  /** In a collection the order of the reports cannot matter: all children have connected, or none. */
  lemma {:induction false} ReportsCompatible(w: Setup, n: nat, s: State)
    requires GoodSetup(w) && Reachable(w, n, s)
    ensures Compatible(s.log)
  {
    hide Reachable, GoodReport;
    ReachableInv(w, n, s);
    GoodReportsCompatible(w, s.log);
  }
}
