/** Runs that show what can happen: any combination of times does, and some of them end in reports
    that do not say what they seem to. */
module Witnesses {
  import opened CStrings
  import opened Reports
  import opened Collection
  import opened CollectionTheorems
  import opened History
  import opened Printed

  /** What has been done stays done. */
  lemma {:induction false} PastGrows(w: Setup, s: State, steps: seq<Step>)
    requires Legal(w, s, steps)
    ensures var t := After(w, s, steps);
            s.ownPast <= t.ownPast && |t.past| == |s.past| && forall i :: 0 <= i < |s.past| ==> s.past[i] <= t.past[i]
    decreases |steps|
  {
    hide Enabled, Apply;
    if steps != [] {
      StepGrowsPast(w, s, steps[0]);
      PastGrows(w, Apply(w, s, steps[0]), steps[1..]);
    }
  }

  lemma StepGrowsPast(w: Setup, s: State, step: Step)
    requires Enabled(w, s, step)
    ensures var t := Apply(w, s, step);
            s.ownPast <= t.ownPast && |t.past| == |s.past| && forall i :: 0 <= i < |s.past| ==> s.past[i] <= t.past[i]
  {
    hide Frame;
    if step.Read? {
      ReadKeepsPast(w, s);
    }
  }

  lemma OpsRest(es: seq<Event>)
    requires es != []
    ensures Ops(es) != [] && Ops(es)[0] == es[0].op && Ops(es)[1..] == Ops(es[1..])
  {
  }

  /** The parent does what it has to do, in any times. */
  lemma {:induction false} ParentDoes(w: Setup, n: nat, s: State, es: seq<Event>) returns (t: State)
    requires Reachable(w, n, s) && s.parent == Busy(Ops(es)) && Timed(es)
    ensures Reachable(w, n, t) && t.ownPast == s.ownPast + es && t.past == s.past && t.children == s.children
    decreases |es|
  {
    hide Reachable, RunParentOp, Ops;
    if es == [] {
      t := s;
      assert s.ownPast + [] == s.ownPast;
    } else {
      OpsRest(es);
      var e := es[0];
      assert e in es && forall f :: f in es[1..] ==> f in es;
      ReachStep(w, n, s, ParentOp(e.time));
      t := ParentDoes(w, n, Apply(w, s, ParentOp(e.time)), es[1..]);
      assert es == [e] + es[1..];
      Assoc(s.ownPast, [e], es[1..]);
    }
  }

  /** So does a child. */
  lemma {:induction false} ChildDoes(w: Setup, n: nat, s: State, i: nat, es: seq<Event>) returns (t: State)
    requires Reachable(w, n, s) && i < |s.children| == |s.past| && Timed(es)
    requires s.children[i].Running? && s.children[i].me.todo == Ops(es)
    ensures Reachable(w, n, t) && t.ownPast == s.ownPast && t.past == s.past[i := s.past[i] + es]
    ensures |t.children| == |s.children|
    ensures forall j :: 0 <= j < |s.children| && j != i ==> t.children[j] == s.children[j]
    decreases |es|
  {
    hide Reachable, Ops;
    if es == [] {
      t := s;
      assert s.past[i] + [] == s.past[i];
    } else {
      OpsRest(es);
      var e := es[0];
      assert e in es && forall f :: f in es[1..] ==> f in es;
      ReachStep(w, n, s, ChildOp(i, e.time));
      t := ChildDoes(w, n, Apply(w, s, ChildOp(i, e.time)), i, es[1..]);
      assert es == [e] + es[1..];
      Assoc(s.past[i], [e], es[1..]);
    }
  }

  /** And the children from the `i`-th on. */
  lemma {:induction false} ChildrenDo(w: Setup, n: nat, s: State, pasts: seq<seq<Event>>, i: nat) returns (t: State)
    requires Reachable(w, n, s) && i <= |pasts| == |s.past| == |s.children|
    requires forall j :: i <= j < |pasts| ==>
               && Timed(pasts[j]) && s.past[j] == []
               && s.children[j].Running? && s.children[j].me.todo == Ops(pasts[j])
    requires forall j :: 0 <= j < i ==> s.past[j] == pasts[j]
    ensures Reachable(w, n, t) && t.ownPast == s.ownPast && t.past == pasts
    decreases |pasts| - i
  {
    hide Reachable, Ops, Timed;
    if i == |pasts| {
      t := s;
    } else {
      t := ChildDoes(w, n, s, i, pasts[i]);
      assert [] + pasts[i] == pasts[i];
      t := ChildrenDo(w, n, t, pasts, i + 1);
    }
  }

  /** Whatever times the operations of the processes are to take, some completed run has them. */
  lemma {:induction false} EveryPastOccurs(w: Setup, own: seq<Event>, pasts: seq<seq<Event>>) returns (s: State)
    requires GoodSetup(w) && Timed(own) && Ops(own) == w.program
    requires forall i :: 0 <= i < |pasts| ==> Timed(pasts[i]) && Ops(pasts[i]) == w.program
    ensures Reachable(w, |pasts|, s) && s.parent.Done? && s.ownPast == own && s.past == pasts
  {
    hide Reachable, Legal, After, Inv, GoodSetup, Ops, Timed;
    var n := |pasts|;
    ReachInitial(w, n);
    s := ParentDoes(w, n, Initial(w, n), own);
    assert [] + own == own;
    s := ChildrenDo(w, n, s, pasts, 0);
    ReachableInv(w, n, s);
    var more := CanComplete(w, s);
    ReachRun(w, n, s, more);
    PastGrows(w, s, more);
    s := After(w, s, more);
    NothingMore(w, n, s, own, pasts);
  }

  /** At the end no more has been done than there was to do. */
  lemma {:induction false} NothingMore(w: Setup, n: nat, s: State, own: seq<Event>, pasts: seq<seq<Event>>)
    requires GoodSetup(w) && Reachable(w, n, s) && s.parent.Done? && |pasts| == |s.past|
    requires own <= s.ownPast && Ops(own) == w.program
    requires forall i :: 0 <= i < |pasts| ==> pasts[i] <= s.past[i] && Ops(pasts[i]) == w.program
    ensures s.ownPast == own && s.past == pasts
  {
    hide Reachable, GoodSetup, Ops, Timed, Replay, LastConnect, TableOf;
    AllDone(w, n, s);
    assert PastOf(s, 0) == s.ownPast;
    forall i | 0 <= i < |pasts| ensures s.past[i] == pasts[i] {
      assert PastOf(s, i + 1) == s.past[i];
    }
  }

  // ----- Connect times

  /** Processes that connect, and no queries; `before` is how the parent connected before the fork. */
  function Connecting(program: seq<Op>, before: seq<int>): Setup {
    Setup(1028, [], program, Tally(map[], Total(before), -1, 0, |before|), LastTime(before))
  }

  lemma OneConnect(time: int)
    ensures var es := [Event(Connect, time)]; OwnConnects(es) == [time] && Ops(es) == [Connect]
    ensures Total([time]) == time && Total([]) == 0 && [] + [time] == [time]
  {
    assert [Event(Connect, time)][..0] == [] && [time][..0] == [];
  }

  /** One child, which connects in no time. */
  lemma {:induction false} ChildInNoTime(before: seq<int>, own: seq<Event>) returns (s: State)
    requires before == [] || before == [100]
    requires own == [Event(Connect, 100)] || own == [Event(Connect, 0)]
    ensures var w := Connecting([Connect], before);
            && GoodSetup(w) && Reachable(w, 1, s) && s.parent.Done?
            && s.ownPast == own && s.past == [[Event(Connect, 0)]]
            && s.tally.maxConnect == 0 && s.tally.reported == |before| + 2
            && s.tally.totalConnect == Total(before) + own[0].time
  {
    hide Reachable, OwnConnects, Total, ReportsOf, ConnectTimes, NoneAbove, NoneBelow, IsMaximum, IsMinimum, Ops,
      AllConnects;
    OneConnect(0);
    OneConnect(100);
    var w := Connecting([Connect], before);
    s := EveryPastOccurs(w, own, [[Event(Connect, 0)]]);
    PrintedConnectTimes(w, 1, s, before);
    ConnectTimesReported(w, 1, s);
    var cs := ConnectTimes(ReportsOf(s.children));
    assert before + [0] != [] && Last(before + [0]) == 0;
    assert cs == [0];
    MaximumOfNothing(s.tally.maxConnect);
  }

  lemma MaximumOfNothing(m: int)
    requires IsMaximum(m, [0] + [0])
    ensures m == 0
  {
  }

  /** The parent connects in 100 ms, its child in no time: 50 ms on average, 0 ms at most. */
  lemma {:induction false} AverageAboveMaximum() returns (s: State)
    ensures Reachable(Connecting([Connect], []), 1, s) && s.parent.Done?
    ensures s.ownPast == [Event(Connect, 100)] && s.past == [[Event(Connect, 0)]]
    ensures s.tally.maxConnect == 0 && s.tally.reported == 2 && s.tally.totalConnect / s.tally.reported == 50
  {
    hide Reachable, Total;
    s := ChildInNoTime([], [Event(Connect, 100)]);
    OneConnect(0);
  }

  /** The parent connects in 100 ms before the fork, and no process takes any time after it: the
      printed maximum is 0. */
  lemma {:induction false} EarlyConnectForgotten() returns (s: State)
    ensures Reachable(Connecting([Connect], [100]), 1, s) && s.parent.Done?
    ensures s.ownPast == [Event(Connect, 0)] && s.past == [[Event(Connect, 0)]]
    ensures s.tally.maxConnect == 0 && s.tally.totalConnect == 100
  {
    hide Reachable, Total;
    s := ChildInNoTime([100], [Event(Connect, 0)]);
    OneConnect(100);
  }

  /** Nobody connects, and one client is reported, with a total and a minimum of -1. */
  lemma {:induction false} NobodyCounted() returns (s: State)
    ensures Reachable(Connecting([], []), 1, s) && s.parent.Done? && s.ownPast == [] && s.past == [[]]
    ensures s.tally.reported == 1
    ensures s.tally.totalConnect == s.tally.minConnect == -1 && s.tally.maxConnect == 0
  {
    hide Reachable, ReportsOf, ConnectTimes, NoneAbove, NoneBelow, IsMaximum, IsMinimum;
    var w := Connecting([], []);
    s := EveryPastOccurs(w, [], [[]]);
    PrintedConnectTimes(w, 1, s, []);
    assert ChildConnects(s) == [[]] && Flat([[]]) == [];
  }

  // ----- Query times

  const ONE_TYPE := Setup(1028, ["t"], [Shot("t"), Shot("t")], Tally(map["t" := NO_STATS], 0, -1, 0, 0), -1)

  /** Two queries. */
  function Two(a: int, b: int): seq<Event> {
    [Event(Shot("t"), a), Event(Shot("t"), b)]
  }

  lemma TwoQueries(a: int, b: int)
    ensures QueryTimes(Two(a, b), "t") == [a, b] && Ops(Two(a, b)) == ONE_TYPE.program
  {
    var es := Two(a, b);
    assert es[..1] == [es[0]] && es[..1][..0] == [];
    assert QueryTimes(es[..1], "t") == [a];
  }

  lemma OneTypeIsGood()
    ensures GoodSetup(ONE_TYPE)
  {
    assert ["t"][1..] == [];
  }

  /** Two processes that fire two queries each. */
  lemma {:induction false} TwoProcesses(a: nat, b: nat, c: nat, d: nat) returns (s: State)
    requires a <= 9 && b <= 9 && c <= 9 && d <= 9
    ensures Reachable(ONE_TYPE, 1, s) && s.parent.Done? && s.ownPast == Two(a, b) && s.past == [Two(c, d)]
    ensures "t" in s.own.table && s.own.table["t"] == RecordAll(NO_STATS, [a, b]) && "t" in s.tally.table
    ensures IsMaximum(s.tally.table["t"].maxTime, [a, b, c, d]) <==> SomeLastIsLongest([[a, b], [c, d]])
    ensures Flat([[a, b], [c, d]]) == [a, b, c, d]
  {
    hide Reachable, GoodSetup, QueryTimes, IsMaximum, IsMinimum, SomeLastIsLongest, SomeLastIsShortest, Replay,
      RecordAll, Ops, LastConnect;
    OneTypeIsGood();
    TwoQueries(a, b);
    TwoQueries(c, d);
    s := EveryPastOccurs(ONE_TYPE, Two(a, b), [Two(c, d)]);
    NoQueriesBefore();
    PrintedTimes(ONE_TYPE, 1, s, "t", []);
    var ts := TimesOfAll([], s, "t");
    assert PastOf(s, 0) == Two(a, b) && PastOf(s, 1) == Two(c, d);
    assert [] + [a, b] == [a, b] && [] + [c, d] == [c, d];
    assert ts == [[a, b], [c, d]];
    FlatOfTwo([a, b], [c, d]);
    assert [a, b] + [c, d] == [a, b, c, d];
    ReachablePast(ONE_TYPE, 1, s);
    ReplayRecord(ONE_TYPE.start, s.ownPast, "t");
  }

  lemma NoQueriesBefore()
    ensures RecordAll(NO_STATS, []) == NO_STATS && Shots(ONE_TYPE.program, "t") == 2
  {
    assert ONE_TYPE.program[1..] == [Shot("t")] && [Shot("t")][1..] == [];
  }

  lemma FlatOfTwo(a: seq<int>, b: seq<int>)
    ensures Flat([a, b]) == a + b
  {
    assert [a, b][1..] == [b] && [b][1..] == [];
    assert Flat([b]) == b + Flat([]) == b;
  }

  /** 5 ms and 1 ms in one process, 1 ms and 9 ms in another: the first one's record is wrong, and the
      report is right all the same. */
  lemma {:induction false} WrongRecordRightReport() returns (s: State)
    ensures Reachable(ONE_TYPE, 1, s) && s.parent.Done? && s.ownPast == Two(5, 1) && s.past == [Two(1, 9)]
    ensures "t" in s.own.table && s.own.table["t"].maxTime == 1
    ensures "t" in s.tally.table && IsMaximum(s.tally.table["t"].maxTime, [5, 1, 1, 9])
  {
    hide Reachable, IsMaximum, Flat;
    s := TwoProcesses(5, 1, 1, 9);
    RecordAfterRun([5, 1]);
    var ts := [[5, 1], [1, 9]];
    assert forall q :: q in [5, 1, 1, 9] ==> q <= Last(ts[1]);
    assert SomeLastIsLongest(ts);
  }

  /** 5 ms and 1 ms in one process, 1 ms and 2 ms in another: the printed maximum is not that of the
      queries. */
  lemma {:induction false} WrongReport() returns (s: State)
    ensures Reachable(ONE_TYPE, 1, s) && s.parent.Done? && s.ownPast == Two(5, 1) && s.past == [Two(1, 2)]
    ensures "t" in s.tally.table && !IsMaximum(s.tally.table["t"].maxTime, [5, 1, 1, 2])
  {
    hide Reachable, IsMaximum, Flat;
    s := TwoProcesses(5, 1, 1, 2);
    var ts := [[5, 1], [1, 2]];
    assert 5 in [5, 1, 1, 2] && Last(ts[0]) == 1 && Last(ts[1]) == 2;
    assert !SomeLastIsLongest(ts);
  }
}
