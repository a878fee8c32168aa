/** What the collection guarantees, over every run. */
module CollectionTheorems {
  import opened CStrings
  import opened Reports
  import opened Codec
  import opened Collection
  import opened CollectionInvariant

  lemma {:induction false} InitialSums(cs: seq<Child>)
    requires forall c :: c in cs ==> c.Running?
    ensures Sum(cs, Sends) == Sum(cs, Finished) == Sum(cs, IsReaped) == 0 && Sent(cs) == multiset{}
  {
    if cs != [] {
      InitialSums(cs[..|cs| - 1]);
      assert cs[|cs| - 1] in cs;
    }
  }

  lemma {:induction false} InitialProcess(w: Setup)
    requires GoodSetup(w)
    ensures GoodTable(w, w.start.table, w.program) && GoodConnect(w, w.connectTime, w.program)
  {
  }

  lemma {:induction false} InitialInv(w: Setup, n: nat)
    requires GoodSetup(w)
    ensures Inv(w, Initial(w, n))
  {
    hide GoodSetup, Inherited;
    var s := Initial(w, n);
    InitialSums(s.children);
    assert InvLock(s);
    assert InvProcesses(w, s) by {
      InitialProcess(w);
    }
    assert s.log[s.taken..FinishedFrames(s)] == [];
  }

  lemma {:induction false} StepKeepsInv(w: Setup, s: State, step: Step)
    requires Inv(w, s) && Enabled(w, s, step)
    ensures Inv(w, Apply(w, s, step))
  {
    match step {
      case ChildOp(i, time) => KeepChildOp(w, s, i, time);
      case Poll(i) => KeepPoll(w, s, i);
      case Lock(i) => KeepLock(w, s, i);
      case WriteByte(i) => KeepWriteByte(w, s, i);
      case Unlock(i) => KeepUnlock(w, s, i);
      case Exit(i) => KeepExit(w, s, i);
      case ParentOp(time) => KeepParentOp(w, s, time);
      case Sync => KeepSync(w, s);
      case Reap(i) => KeepReap(w, s, i);
      case NoMoreChildren => KeepNoMoreChildren(w, s);
      case Read =>
        match s.parent {
          case AtConnect => KeepReadConnect(w, s);
          case AtCount => KeepReadCount(w, s);
          case AtLength(_) => KeepReadLength(w, s);
          case AtBody(_, _) => KeepReadBody(w, s);
        }
    }
  }

  lemma {:induction false} RunKeepsInv(w: Setup, s: State, steps: seq<Step>)
    requires Inv(w, s) && Legal(w, s, steps)
    ensures Inv(w, After(w, s, steps))
    decreases |steps|
  {
    hide Inv, Enabled, Apply;
    if steps != [] {
      StepKeepsInv(w, s, steps[0]);
      RunKeepsInv(w, Apply(w, s, steps[0]), steps[1..]);
    }
  }

  ghost predicate Reachable(w: Setup, n: nat, s: State) {
    exists steps :: Legal(w, Initial(w, n), steps) && After(w, Initial(w, n), steps) == s
  }

  lemma {:induction false} ReachableInv(w: Setup, n: nat, s: State)
    requires GoodSetup(w) && Reachable(w, n, s)
    ensures Inv(w, s)
  {
    hide Inv;
    var steps :| Legal(w, Initial(w, n), steps) && After(w, Initial(w, n), steps) == s;
    InitialInv(w, n);
    RunKeepsInv(w, Initial(w, n), steps);
  }

  /** A run and its continuation. */
  lemma {:induction false} RunAppend(w: Setup, s: State, a: seq<Step>, b: seq<Step>)
    requires Legal(w, s, a) && Legal(w, After(w, s, a), b)
    ensures Legal(w, s, a + b) && After(w, s, a + b) == After(w, After(w, s, a), b)
    decreases |a|
  {
    hide Enabled, Apply;
    if a == [] {
      assert a + b == b;
    } else {
      assert (a + b)[0] == a[0] && (a + b)[1..] == a[1..] + b;
      RunAppend(w, Apply(w, s, a[0]), a[1..], b);
    }
  }

  lemma {:induction false} ReachRun(w: Setup, n: nat, s: State, steps: seq<Step>)
    requires Reachable(w, n, s) && Legal(w, s, steps)
    ensures Reachable(w, n, After(w, s, steps))
  {
    hide Legal, After;
    var before :| Legal(w, Initial(w, n), before) && After(w, Initial(w, n), before) == s;
    RunAppend(w, Initial(w, n), before, steps);
  }

  lemma {:induction false} ReachStep(w: Setup, n: nat, s: State, step: Step)
    requires Reachable(w, n, s) && Enabled(w, s, step)
    ensures Reachable(w, n, Apply(w, s, step))
  {
    hide Enabled, Apply;
    assert [step][1..] == [];
    ReachRun(w, n, s, [step]);
  }

  lemma ReachInitial(w: Setup, n: nat)
    ensures Reachable(w, n, Initial(w, n))
  {
    assert Legal(w, Initial(w, n), []) && After(w, Initial(w, n), []) == Initial(w, n);
  }

  /** Framing. In every reachable state the unread bytes are the rest of the frame the parent is
      reading, then whole frames in the order of the lock, then what the holder of the lock has
      written so far. */
  lemma {:induction false} Framing(w: Setup, n: nat, s: State)
    requires GoodSetup(w) && Reachable(w, n, s)
    ensures Inv(w, s)
    ensures if s.sem == 1 then PipeIs(w, s, [])
            else exists c :: c in s.children && c.Sending? && c.report == s.log[|s.log| - 1]
                   && c.sent <= |Frame(w, c.report)| && PipeIs(w, s, Frame(w, c.report)[..c.sent])
  {
    ReachableInv(w, n, s);
    if s.sem != 1 {
      var c := Sender(s.children);
    }
  }

  /** No short read. The parent only enters `transfer_report_data` with a whole frame at the head
      of the pipe, and it never dies on an incomplete read or an unknown query type. */
  lemma {:induction false} NoShortRead(w: Setup, n: nat, s: State)
    requires GoodSetup(w) && Reachable(w, n, s)
    ensures !s.parent.Dead? && !s.parent.Misread?
    ensures s.parent.AtConnect? ==> s.taken < |s.log| && Frame(w, s.log[s.taken]) <= s.pipe
    ensures Reading(s.parent) ==> s.pipe != []
  {
    hide Frame, Frames, PipeIs, Sum, Sent, GoodReport, AbsorbAll, AbsorbConnect, MergeAll, RecordsOf, Reachable;
    ReachableInv(w, n, s);
    if Reading(s.parent) {
      ReadingFindsBytes(w, s);
    }
    if s.parent.AtConnect? {
      WholeFrameAtHead(w, s);
    }
  }

  lemma {:induction false} ReadingFindsBytes(w: Setup, s: State)
    requires Inv(w, s) && Reading(s.parent)
    ensures s.pipe != []
  {
    hide Frames, Sum, Sent, GoodReport, AbsorbAll, AbsorbConnect, MergeAll, RecordsOf;
    PipeHead(w, s);
    match s.parent {
      case AtConnect => WholeFrameAtHead(w, s); FrameSize(w, s.log[s.taken]);
      case AtCount =>
      case AtLength(left) => assert Unread(w, s, left) != [];
      case AtBody(left, _) => assert Unread(w, s, left) != []; assert |EncodeRecord(Unread(w, s, left)[0])| >= 13;
    }
  }

  // ----- Deadlock freedom and termination

  /** What a child that is not done can do next, unless the pipe is full or the lock is taken. */
  function NextOf(w: Setup, c: Child, i: nat): Step
  {
    match c
    case Running(me) => if me.todo != [] then ChildOp(i, 0) else Poll(i)
    case Ready(_) => Lock(i)
    case Sending(_, _) => WriteByte(i)
    case Released(_) => Exit(i)
    case Zombie(_) => Reap(i)
    case Reaped(_) => Sync
  }

  /** Every reachable state that is not final has an enabled step. */
  lemma {:induction false} NoDeadlock(w: Setup, s: State) returns (step: Step)
    requires Inv(w, s) && !s.parent.Done?
    ensures Enabled(w, s, step)
  {
    if s.parent.Busy? {
      step := if s.parent.todo != [] then ParentOp(0) else Sync;
    } else if Reading(s.parent) {
      ReadingFindsBytes(w, s);
      step := Read;
    } else {
      assert s.parent.Waiting?;
      if forall c :: c in s.children ==> c.Reaped? {
        step := NoMoreChildren;
      } else {
        step := SomeChildMoves(w, s);
      }
    }
  }

  lemma {:induction false} SomeChildMoves(w: Setup, s: State) returns (step: Step)
    requires Inv(w, s) && s.parent.Waiting? && exists c :: c in s.children && !c.Reaped?
    ensures Enabled(w, s, step)
  {
    hide InvProcesses, InvPipe, Frame, Sum, Sent, AbsorbAll;
    if i: nat :| i < |s.children| && (s.children[i].Released? || s.children[i].Zombie?) {
      step := if s.children[i].Released? then Exit(i) else Reap(i);
    } else {
      PipeHoldsOnlyPartial(w, s);
      CapHoldsFrame(w);
      if i: nat :| i < |s.children| && s.children[i].Sending? {
        step := SenderMoves(w, s, i);
      } else {
        SenderExists(s);
        var i: nat :| i < |s.children| && !s.children[i].Reaped?;
        step := NextOf(w, s.children[i], i);
      }
    }
  }

  /** A pipe that holds nothing but part of one frame has room for its next byte. */
  lemma {:induction false} SenderMoves(w: Setup, s: State, i: nat) returns (step: Step)
    requires Inv(w, s) && i < |s.children| && s.children[i].Sending?
    requires s.pipe == Frame(w, s.children[i].report)[..s.children[i].sent]
    ensures Enabled(w, s, step)
  {
    hide InvLock, InvPipe, Frame, AbsorbAll, GoodReport;
    var c := s.children[i];
    assert c in s.children;
    CapHoldsFrame(w);
    FrameSize(w, c.report);
    step := if c.sent == |Frame(w, c.report)| then Unlock(i) else WriteByte(i);
  }

  lemma CapHoldsFrame(w: Setup)
    requires GoodSetup(w)
    ensures GoodProgram(w) && w.cap >= FrameLength(w)
  {
  }

  lemma {:induction false} SenderExists(s: State)
    requires InvLock(s) && forall c :: c in s.children ==> !c.Sending?
    ensures s.sem == 1
  {
    if s.sem == 0 {
      var c := Sender(s.children);
    }
  }

  /** While the parent waits and no child has finished unreaped, there is no whole frame in the pipe. */
  lemma {:induction false} PipeHoldsOnlyPartial(w: Setup, s: State)
    requires Inv(w, s) && s.parent.Waiting?
    requires forall i :: 0 <= i < |s.children| ==> !s.children[i].Released? && !s.children[i].Zombie?
    ensures s.sem == 1 ==> s.pipe == []
    ensures forall c :: c in s.children && c.Sending? ==> s.pipe == Frame(w, c.report)[..c.sent]
  {
    hide GoodReport, GoodOwn, GoodSetup, Frame, Sum, Sent, AbsorbAll;
    forall c | c in s.children ensures Finished(c) <= IsReaped(c) {
    }
    SumMonotone(s.children, Finished, IsReaped);
    assert s.log[s.taken..FinishedFrames(s)] == [];
  }

  function ChildRank(c: Child): nat {
    match c
    case Running(me) => 1700 + |me.todo|
    case Ready(_) => 1699
    case Sending(_, sent) => if sent <= 1028 then 1698 - sent else 0
    case Released(_) => 602
    case Zombie(_) => 601
    case Reaped(_) => 0
  }

  function ParentRank(p: Parent): nat {
    match p
    case Busy(todo) => 2 + |todo|
    case Waiting => 1
    case AtConnect => 516
    case AtCount => 515
    case AtLength(left) => 2 * left + 2
    case AtBody(left, _) => 2 * left + 1
    case Misread => 0
    case Dead => 0
    case Done => 0
  }

  function Rank(s: State): nat {
    Sum(s.children, ChildRank) + ParentRank(s.parent)
  }

  /** Every step brings the end nearer. */
  lemma {:induction false} RankFalls(w: Setup, s: State, step: Step)
    requires Inv(w, s) && Enabled(w, s, step)
    ensures Rank(Apply(w, s, step)) < Rank(s)
  {
    hide Frame, RunParentOp, RunOp, ReadSome, Inv, Sum;
    match step {
      case ChildOp(i, time) =>
        TodoShrinks(s.children[i].me, time);
        SumUpdate(s.children, ChildRank, i, Running(RunOp(s.children[i].me, time)));
      case Poll(i) =>
        var me := s.children[i].me;
        SumUpdate(s.children, ChildRank, i, Ready(Report(me.connectTime, me.table)));
      case Lock(i) => SumUpdate(s.children, ChildRank, i, Sending(s.children[i].report, 0));
      case WriteByte(i) =>
        SumUpdate(s.children, ChildRank, i, s.children[i].(sent := s.children[i].sent + 1));
        FrameBound(w, s, s.children[i].report);
      case Unlock(i) =>
        SumUpdate(s.children, ChildRank, i, Released(s.children[i].report));
        FrameBound(w, s, s.children[i].report);
      case Exit(i) => SumUpdate(s.children, ChildRank, i, Zombie(s.children[i].report));
      case Reap(i) => SumUpdate(s.children, ChildRank, i, Reaped(s.children[i].report));
      case ParentOp(_) =>
      case Sync =>
      case NoMoreChildren =>
      case Read => ReadRankFalls(w, s);
    }
  }

  lemma TodoShrinks(p: Process, time: int)
    requires p.todo != []
    ensures RunOp(p, time).todo == p.todo[1..]
  {
  }

  lemma FrameBound(w: Setup, s: State, r: Report)
    requires Inv(w, s)
    ensures |Frame(w, r)| <= 1028
  {
    FrameSize(w, r);
  }

  lemma {:induction false} ReadRankFalls(w: Setup, s: State)
    requires Inv(w, s) && Reading(s.parent)
    ensures ParentRank(ReadSome(s).parent) < ParentRank(s.parent) && ReadSome(s).children == s.children
  {
    hide DecodeStats, DecodeInt, UpTo, AbsorbConnect, Merge, Inv;
    SetupOf(w, s);
  }

  lemma SetupOf(w: Setup, s: State)
    requires Inv(w, s)
    ensures GoodSetup(w) && (s.parent.AtBody? ==> s.parent.left > 0)
  {
    hide GoodSetup, InvProcesses, InvLock, InvPipe, AbsorbAll, MergeAll;
  }

  /** No run is longer than the rank of its first state. */
  lemma {:induction false} RunsEnd(w: Setup, s: State, steps: seq<Step>)
    requires Inv(w, s) && Legal(w, s, steps)
    ensures |steps| + Rank(After(w, s, steps)) <= Rank(s)
    decreases |steps|
  {
    hide Inv, Enabled, Apply, Rank;
    if steps != [] {
      StepKeepsInv(w, s, steps[0]);
      RankFalls(w, s, steps[0]);
      RunsEnd(w, Apply(w, s, steps[0]), steps[1..]);
    }
  }

  /** From every reachable state the collection can be completed, and (with `RunsEnd`) any run that
      is continued as long as it can be does complete. */
  lemma {:induction false} CanComplete(w: Setup, s: State) returns (steps: seq<Step>)
    requires Inv(w, s)
    ensures Legal(w, s, steps) && After(w, s, steps).parent.Done?
    decreases Rank(s)
  {
    hide Inv, Enabled, Apply, Rank;
    if s.parent.Done? {
      steps := [];
    } else {
      var step := NoDeadlock(w, s);
      StepKeepsInv(w, s, step);
      RankFalls(w, s, step);
      var more := CanComplete(w, Apply(w, s, step));
      steps := [step] + more;
      assert steps[1..] == more;
    }
  }

  /** Deadlock freedom: as long as the parent is not done, something can happen. */
  lemma {:induction false} SomethingCanHappen(w: Setup, n: nat, s: State)
    requires GoodSetup(w) && Reachable(w, n, s) && !s.parent.Done?
    ensures exists step :: Enabled(w, s, step)
  {
    hide Reachable, GoodSetup, Inv, Enabled;
    ReachableInv(w, n, s);
    var step := NoDeadlock(w, s);
  }

  /** Termination: no run is longer than the rank of the state after the forks, and one that cannot
      be continued has brought the parent to the end of the collection. */
  lemma {:induction false} EveryRunEnds(w: Setup, n: nat, steps: seq<Step>)
    requires GoodSetup(w) && Legal(w, Initial(w, n), steps)
    ensures |steps| <= Rank(Initial(w, n))
    ensures var s := After(w, Initial(w, n), steps); (forall step :: !Enabled(w, s, step)) ==> s.parent.Done?
  {
    hide GoodSetup, Legal, After, Inv, Rank, Enabled;
    InitialInv(w, n);
    RunsEnd(w, Initial(w, n), steps);
    var s := After(w, Initial(w, n), steps);
    if !s.parent.Done? {
      assert Reachable(w, n, s);
      SomethingCanHappen(w, n, s);
    }
  }

  // ----- The result

  /** The children's reports, child by child. */
  ghost function ReportsOf(cs: seq<Child>): (rs: seq<Report>)
    requires forall c :: c in cs ==> c.Reaped?
    ensures |rs| == |cs| && forall i :: 0 <= i < |cs| ==> rs[i] == cs[i].report
  {
    if cs == [] then [] else ReportsOf(cs[..|cs| - 1]) + [cs[|cs| - 1].report]
  }

  lemma {:induction false} AllReaped(cs: seq<Child>)
    requires forall c :: c in cs ==> c.Reaped?
    ensures Sent(cs) == multiset(ReportsOf(cs)) && Sum(cs, IsReaped) == Sum(cs, Finished) == |cs|
  {
    if cs != [] {
      var init := cs[..|cs| - 1];
      AllReaped(init);
      assert cs[|cs| - 1] in cs;
    }
  }

  lemma {:induction false} SameChildren(w: Setup, s: State, steps: seq<Step>)
    requires Legal(w, s, steps)
    ensures |After(w, s, steps).children| == |s.children|
    decreases |steps|
  {
    if steps != [] {
      SameChildren(w, Apply(w, s, steps[0]), steps[1..]);
    }
  }

  /** When the parent leaves `thread_sync`: every child has been reaped, the pipe is empty, and the
      parent has absorbed each child's report once, in the order of the lock. */
  lemma {:induction false} CollectionComplete(w: Setup, n: nat, s: State)
    requires GoodSetup(w) && Reachable(w, n, s) && s.parent.Done?
    ensures Inv(w, s) && |s.children| == n && (forall c :: c in s.children ==> c.Reaped?)
    ensures s.pipe == [] && s.sem == 1
    ensures |s.log| == n && multiset(s.log) == multiset(ReportsOf(s.children))
    ensures s.tally == AbsorbAll(s.own, s.log)
  {
    hide Inv, Legal, After, AbsorbAll;
    ReachableInv(w, n, s);
    var steps :| Legal(w, Initial(w, n), steps) && After(w, Initial(w, n), steps) == s;
    SameChildren(w, Initial(w, n), steps);
    DoneMeansAll(w, s);
  }

  lemma {:induction false} DoneMeansAll(w: Setup, s: State)
    requires Inv(w, s) && s.parent.Done?
    ensures (forall c :: c in s.children ==> c.Reaped?) && s.pipe == [] && s.sem == 1
    ensures |s.log| == |s.children| && multiset(s.log) == multiset(ReportsOf(s.children))
    ensures s.tally == AbsorbAll(s.own, s.log)
  {
    hide Frame, InvProcesses, GoodSetup, AbsorbAll, Sum, Sent, ReportsOf;
    AllReaped(s.children);
    SenderExists(s);
    assert s.log[..s.taken] == s.log;
    assert s.log[s.taken..FinishedFrames(s)] == [];
  }

  lemma {:induction false} GoodReportsCompatible(w: Setup, rs: seq<Report>)
    requires forall r :: r in rs ==> GoodReport(w, r)
    ensures Compatible(rs)
  {
    if Connects(w.program) > 0 || w.connectTime >= 0 {
      assert forall r :: r in rs ==> 0 <= r.connectTime;
    } else {
      assert forall r :: r in rs ==> r.connectTime == -1;
    }
  }

  /** The final figures do not depend on the order in which the children locked the semaphore, nor
      on the order in which they were reaped: they are those of reading child 0, child 1, ... */
  lemma {:induction false} FiguresIndependentOfSchedule(w: Setup, n: nat, s: State)
    requires GoodSetup(w) && Reachable(w, n, s) && s.parent.Done?
    ensures forall c :: c in s.children ==> c.Reaped?
    ensures s.tally == AbsorbAll(s.own, ReportsOf(s.children))
  {
    hide GoodReport, Reachable, AbsorbAll;
    CollectionComplete(w, n, s);
    GoodReportsCompatible(w, s.log);
    OrderIndependence(s.own, s.log, ReportsOf(s.children));
  }

  /** The counters of one type after absorbing good reports. */
  lemma {:induction false} CountersAdd(w: Setup, t: Tally, rs: seq<Report>, kind: string)
    requires GoodTable(w, t.table, []) && (forall r :: r in rs ==> GoodReport(w, r)) && kind in w.kinds
    ensures var s := AbsorbAll(t, rs);
            && s.reported == t.reported + |rs|
            && kind in s.table && OrderlyTimes(s.table[kind])
            && s.table[kind].numQueries == (|rs| + 1) * (Inherited(w, kind) + Shots(w.program, kind))
  {
    var each := Inherited(w, kind) + Shots(w.program, kind);
    if rs == [] {
      assert Shots([], kind) == 0;
    } else {
      var init, r := rs[..|rs| - 1], rs[|rs| - 1];
      CountersAdd(w, t, init, kind);
      assert r in rs && r.table[kind].numQueries + Shots([], kind) == each;
      OneShareMore(|init| + 1, each);
    }
  }

  lemma OneShareMore(n: nat, each: int)
    ensures (n + 1) * each == n * each + each
  {
  }

  /** End to end. Whatever the interleaving, once the parent leaves `thread_sync` it has counted,
      for every query type, the queries of all `n + 1` processes, and as many clients as there are
      children beside its own connects. */
  lemma {:induction false} EveryQueryCounted(w: Setup, n: nat, s: State, kind: string)
    requires GoodSetup(w) && Reachable(w, n, s) && s.parent.Done? && kind in w.kinds
    ensures kind in s.tally.table && OrderlyTimes(s.tally.table[kind])
    ensures s.tally.table[kind].numQueries == (n + 1) * (Inherited(w, kind) + Shots(w.program, kind))
    ensures s.tally.reported == w.start.reported + Connects(w.program) + n
  {
    hide GoodReport, Reachable, AbsorbAll, InvLock, InvPipe, GoodParent;
    CollectionComplete(w, n, s);
    CountersAdd(w, s.own, s.log, kind);
  }

  ghost predicate OrderlyTally(w: Setup, s: State) {
    forall k :: k in w.kinds ==> k in s.tally.table && OrderlyTimes(s.tally.table[k])
  }

  /** The next record to be read has orderly times. */
  lemma {:induction false} UnreadIsOrderly(w: Setup, s: State, left: nat)
    requires Inv(w, s) && s.taken > 0 && 0 < left <= |w.kinds|
    ensures var r := Unread(w, s, left)[0]; r.kind in w.kinds && OrderlyTimes(r.stats)
  {
    hide GoodOwn, GoodSetup, Sum, Sent, InvPipe, GoodParent;
    var r, i := s.log[s.taken - 1], |w.kinds| - left;
    assert r in s.log && w.kinds[i] in w.kinds;
    RecordsAt(w.kinds, r.table, i);
  }

  lemma {:induction false} BodyKeepsOrderly(w: Setup, s: State)
    requires Inv(w, s) && s.parent.AtBody? && OrderlyTally(w, s)
    ensures OrderlyTally(w, ReadSome(s))
  {
    hide GoodReport, GoodOwn, GoodSetup, Sum, Sent, InvPipe, Frames, Frame, AbsorbAll, MergeAll, RecordsOf, UpTo,
      DecodeStats, EncodeRecord;
    FirstUnread(w, s, s.parent.left);
    UnreadIsOrderly(w, s, s.parent.left);
    PipeHead(w, s);
    BodyHead(s.pipe, Unread(w, s, s.parent.left));
  }

  lemma {:induction false} StepKeepsOrderly(w: Setup, s: State, step: Step)
    requires Inv(w, s) && Enabled(w, s, step) && OrderlyTally(w, s)
    ensures OrderlyTally(w, Apply(w, s, step))
  {
    hide Inv, DecodeStats, DecodeInt, UpTo, Frame;
    if step.Read? && s.parent.AtBody? {
      BodyKeepsOrderly(w, s);
    }
  }

  lemma {:induction false} RunKeepsOrderly(w: Setup, s: State, steps: seq<Step>)
    requires Inv(w, s) && Legal(w, s, steps) && OrderlyTally(w, s)
    ensures OrderlyTally(w, After(w, s, steps))
    decreases |steps|
  {
    hide Inv, Enabled, Apply, OrderlyTally;
    if steps != [] {
      StepKeepsInv(w, s, steps[0]);
      StepKeepsOrderly(w, s, steps[0]);
      RunKeepsOrderly(w, Apply(w, s, steps[0]), steps[1..]);
    }
  }

  /** Every record of every process has orderly times in every reachable state: the children's, and
      the parent's also in the middle of a report. */
  lemma {:induction false} TimesStayOrderly(w: Setup, n: nat, s: State, kind: string)
    requires GoodSetup(w) && Reachable(w, n, s) && kind in w.kinds
    ensures forall c :: c in s.children ==>
              var t := if c.Running? then c.me.table else c.report.table; kind in t && OrderlyTimes(t[kind])
    ensures kind in s.own.table && OrderlyTimes(s.own.table[kind])
    ensures kind in s.tally.table && OrderlyTimes(s.tally.table[kind])
  {
    ReachableInv(w, n, s);
    var steps :| Legal(w, Initial(w, n), steps) && After(w, Initial(w, n), steps) == s;
    StartsOrderly(w, n);
    RunKeepsOrderly(w, Initial(w, n), steps);
  }

  lemma StartsOrderly(w: Setup, n: nat)
    requires GoodSetup(w)
    ensures Inv(w, Initial(w, n)) && OrderlyTally(w, Initial(w, n))
  {
    hide Inv;
    InitialInv(w, n);
  }

  /** The times in the report: the extremes of what the processes have, for every interleaving. */
  lemma {:induction false} TimesReported(w: Setup, n: nat, s: State, kind: string)
    requires GoodSetup(w) && Reachable(w, n, s) && s.parent.Done? && kind in w.kinds
    ensures forall c :: c in s.children ==> c.Reaped?
    ensures var rs := ReportsOf(s.children);
            && (forall r :: r in rs ==> kind in r.table) && kind in s.own.table && kind in s.tally.table
            && IsMaximum(s.tally.table[kind].maxTime, [s.own.table[kind].maxTime] + Column(rs, kind, Longest))
            && IsMinimum(s.tally.table[kind].minTime, [s.own.table[kind].minTime] + Column(rs, kind, Shortest))
  {
    hide Reachable, AbsorbAll, InvLock, InvPipe, GoodParent, IsMaximum, IsMinimum;
    CollectionComplete(w, n, s);
    FiguresIndependentOfSchedule(w, n, s);
    var rs := ReportsOf(s.children);
    forall r | r in rs ensures kind in r.table {
      assert r in multiset(rs) && r in multiset(s.log) && GoodReport(w, r);
    }
    TypeFigures(s.own, rs, kind);
  }

  /** What reading the children's connect times makes of the figures. Either all of these are times,
      or none is; they are if the processes connect after the fork or inherit a time. */
  lemma {:induction false} ConnectTimesReported(w: Setup, n: nat, s: State)
    requires GoodSetup(w) && Reachable(w, n, s) && s.parent.Done?
    ensures forall c :: c in s.children ==> c.Reaped?
    ensures var cs := ConnectTimes(ReportsOf(s.children));
            && s.tally.totalConnect == s.own.totalConnect + Total(cs)
            && IsMaximum(s.tally.maxConnect, [w.start.maxConnect] + cs)
            && if Connects(w.program) > 0 || w.connectTime >= 0 then
                 && (forall q :: q in cs ==> 0 <= q)
                 && (w.start.minConnect == -1 && n > 0 ==> IsMinimum(s.tally.minConnect, cs))
                 && (w.start.minConnect == -1 && n == 0 ==> s.tally.minConnect == -1)
               else
                 && (forall q :: q in cs ==> q == -1)
                 && (w.start.minConnect == -1 ==> s.tally.minConnect == -1)
  {
    hide Reachable, AbsorbAll, InvLock, InvPipe, GoodParent, IsMaximum, IsMinimum, GoodReport, GoodSetup;
    CollectionComplete(w, n, s);
    FiguresIndependentOfSchedule(w, n, s);
    SetupTime(w);
    ReportsAreGood(w, n, s);
    var rs := ReportsOf(s.children);
    forall r | r in rs
      ensures if Connects(w.program) > 0 || w.connectTime >= 0 then 0 <= r.connectTime else r.connectTime == -1
    {
      GoodReportTime(w, r);
    }
    ConnectFigures(s.own, rs);
  }

  lemma {:induction false} ReportsAreGood(w: Setup, n: nat, s: State)
    requires GoodSetup(w) && Reachable(w, n, s) && s.parent.Done?
    ensures forall c :: c in s.children ==> c.Reaped?
    ensures forall r :: r in ReportsOf(s.children) ==> GoodReport(w, r)
  {
    hide Reachable, AbsorbAll, InvLock, InvPipe, GoodParent, GoodReport, GoodSetup, GoodOwn;
    CollectionComplete(w, n, s);
    var rs := ReportsOf(s.children);
    forall r | r in rs ensures GoodReport(w, r) {
      assert r in multiset(rs) && r in multiset(s.log);
    }
  }

  lemma GoodReportTime(w: Setup, r: Report)
    requires GoodReport(w, r) && -1 <= w.connectTime
    ensures if Connects(w.program) > 0 || w.connectTime >= 0 then 0 <= r.connectTime else r.connectTime == -1
  {
    assert Connects([]) == 0;
  }

  lemma SetupTime(w: Setup)
    requires GoodSetup(w)
    ensures -1 <= w.connectTime
  {
  }
}
