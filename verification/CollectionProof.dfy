/** Every step of the collection keeps the invariant. */
module CollectionInvariant {
  import opened CStrings
  import opened Reports
  import opened Codec
  import opened Collection

  // ----- Frames

  lemma {:induction false} FrameSize(w: Setup, r: Report)
    requires GoodProgram(w)
    ensures 5 <= |Frame(w, r)| == FrameLength(w) <= 4 + MAX_REPORT_LEN && |w.kinds| <= 78
  {
    SizeIsOfNames(w.kinds, r.table);
    FittingCount(RecordsOf(w.kinds, r.table));
  }

  lemma {:induction false} FramesSnoc(w: Setup, rs: seq<Report>, r: Report)
    ensures Frames(w, rs + [r]) == Frames(w, rs) + Frame(w, r)
  {
    hide Frame;
    if rs == [] {
      assert rs + [r] == [r];
    } else {
      assert (rs + [r])[1..] == rs[1..] + [r];
      FramesSnoc(w, rs[1..], r);
    }
  }

  // ----- The processes' own work

  lemma {:induction false} ShotKeepsTable(w: Setup, t: Table, todo: seq<Op>, kind: string, time: int)
    requires GoodTable(w, t, todo) && todo != [] && todo[0] == Shot(kind) && 0 <= time <= MAX_INT
    ensures GoodTable(w, RecordShot(t, kind, time), todo[1..])
  {
    hide Inherited;
    var t' := RecordShot(t, kind, time);
    forall k | k in w.kinds
      ensures OrderlyTimes(t'[k]) && t'[k].maxTime <= MAX_INT
      ensures t'[k].numQueries + Shots(todo[1..], k) == Inherited(w, k) + Shots(w.program, k)
    {
      assert Shots(todo, k) == (if Shot(kind) == Shot(k) then 1 else 0) + Shots(todo[1..], k);
    }
  }

  lemma {:induction false} ConnectKeepsTable(w: Setup, t: Table, todo: seq<Op>)
    requires GoodTable(w, t, todo) && todo != [] && todo[0] == Connect
    ensures GoodTable(w, t, todo[1..])
  {
    hide Inherited;
    forall k | k in w.kinds ensures Shots(todo, k) == Shots(todo[1..], k) {
    }
  }

  lemma {:induction false} RunOpKeepsGood(w: Setup, p: Process, time: int)
    requires p.todo != [] && 0 <= time <= MAX_INT
    requires GoodTable(w, p.table, p.todo) && GoodConnect(w, p.connectTime, p.todo)
    ensures GoodTable(w, RunOp(p, time).table, p.todo[1..]) && GoodConnect(w, RunOp(p, time).connectTime, p.todo[1..])
  {
    hide GoodTable;
    match p.todo[0] {
      case Connect => ConnectKeepsTable(w, p.table, p.todo);
      case Shot(kind) => ShotKeepsTable(w, p.table, p.todo, kind, time);
    }
  }

  lemma {:induction false} RunParentOpKeepsGood(w: Setup, t: Tally, todo: seq<Op>, time: int)
    requires todo != [] && 0 <= time <= MAX_INT && GoodOwn(w, t, todo)
    ensures GoodOwn(w, RunParentOp(t, todo[0], time), todo[1..])
  {
    hide GoodTable;
    match todo[0] {
      case Connect => ConnectKeepsTable(w, t.table, todo);
      case Shot(kind) => ShotKeepsTable(w, t.table, todo, kind, time);
    }
  }

  // ----- What a step leaves alone

  /** What replacing one child does to every sum in the invariant. */
  lemma {:induction false} Updates(cs: seq<Child>, i: nat, c: Child)
    requires i < |cs|
    ensures Sum(cs[i := c], Sends) == Sum(cs, Sends) - Sends(cs[i]) + Sends(c)
    ensures Sum(cs[i := c], Finished) == Sum(cs, Finished) - Finished(cs[i]) + Finished(c)
    ensures Sum(cs[i := c], IsReaped) == Sum(cs, IsReaped) - IsReaped(cs[i]) + IsReaped(c)
    ensures SentBy(c) == SentBy(cs[i]) ==> Sent(cs[i := c]) == Sent(cs)
    ensures SentBy(cs[i]) == multiset{} ==> Sent(cs[i := c]) == Sent(cs) + SentBy(c)
    ensures forall d :: d in cs[i := c] ==> d == c || d in cs
  {
    hide Sum, Sent, SentBy;
    SumUpdate(cs, Sends, i, c);
    SumUpdate(cs, Finished, i, c);
    SumUpdate(cs, IsReaped, i, c);
    SentUpdate(cs, i, c);
  }

  /** The parent's side is the same in both states: only children, semaphore and pipe may differ,
      and the log may have grown. */
  ghost predicate SameParent(s: State, s': State) {
    && s'.parent == s.parent && s'.tally == s.tally && s'.own == s.own && s'.taken == s.taken
    && s.taken <= |s.log| && s.log <= s'.log
  }

  lemma {:induction false} ParentUndisturbed(w: Setup, s: State, s': State)
    requires SameParent(s, s') && GoodParent(w, s)
    ensures GoodParent(w, s') && Tail(w, s') == Tail(w, s)
  {
    hide Absorb, AbsorbConnect, AbsorbAll, MergeAll, EncodeRecords, EncodeReport, RecordsOf;
    assert s'.log[..s.taken] == s.log[..s.taken];
    assert s.taken > 0 ==> s'.log[..s.taken - 1] == s.log[..s.taken - 1];
    assert forall left :: s.taken > 0 && 0 < left <= |w.kinds| ==> Unread(w, s', left) == Unread(w, s, left);
  }

  // ----- One lemma for each step

  /** A child changes without touching lock, pipe or log. */
  lemma {:induction false} KeepQuietStep(w: Setup, s: State, i: nat, c: Child)
    requires Inv(w, s) && i < |s.children| && GoodChild(w, c)
    requires !c.Sending? && !s.children[i].Sending? && IsReaped(c) == IsReaped(s.children[i])
    requires Finished(c) == Finished(s.children[i]) && SentBy(c) == SentBy(s.children[i])
    ensures Inv(w, SetChild(s, i, c))
  {
    hide GoodChild, GoodReport, GoodOwn, GoodSetup, GoodParent, Tail, Frame, Frames, Sum, Sent, SentBy;
    var s' := SetChild(s, i, c);
    Updates(s.children, i, c);
    assert InvProcesses(w, s') && InvLock(s');
    ParentUndisturbed(w, s, s');
  }

  lemma {:induction false} KeepChildOp(w: Setup, s: State, i: nat, time: int)
    requires Inv(w, s) && Enabled(w, s, ChildOp(i, time))
    ensures Inv(w, Apply(w, s, ChildOp(i, time)))
  {
    hide GoodTable, GoodConnect, GoodReport;
    assert s.children[i] in s.children;
    RunOpKeepsGood(w, s.children[i].me, time);
    KeepQuietStep(w, s, i, Running(RunOp(s.children[i].me, time)));
    HistoryIrrelevant(w, SetChild(s, i, Running(RunOp(s.children[i].me, time))), Apply(w, s, ChildOp(i, time)));
  }

  /** The invariant does not depend on what the processes have done in detail. */
  lemma {:induction false} HistoryIrrelevant(w: Setup, s: State, s': State)
    requires Inv(w, s) && s' == s.(past := s'.past, ownPast := s'.ownPast)
    ensures Inv(w, s')
  {
    hide GoodChild, GoodReport, GoodOwn, GoodSetup, GoodParent, Tail, Frame, Frames, Sum, Sent;
    ParentUndisturbed(w, s, s');
    assert InvProcesses(w, s') && InvLock(s');
    SameTail(w, s, s');
  }

  lemma {:induction false} KeepPoll(w: Setup, s: State, i: nat)
    requires Inv(w, s) && Enabled(w, s, Poll(i))
    ensures Inv(w, Apply(w, s, Poll(i)))
  {
    hide GoodTable, GoodConnect;
    assert s.children[i] in s.children;
    var me := s.children[i].me;
    KeepQuietStep(w, s, i, Ready(Report(me.connectTime, me.table)));
  }

  lemma {:induction false} KeepExit(w: Setup, s: State, i: nat)
    requires Inv(w, s) && Enabled(w, s, Exit(i))
    ensures Inv(w, Apply(w, s, Exit(i)))
  {
    hide GoodReport;
    assert s.children[i] in s.children;
    KeepQuietStep(w, s, i, Zombie(s.children[i].report));
  }

  lemma {:induction false} KeepLock(w: Setup, s: State, i: nat)
    requires Inv(w, s) && Enabled(w, s, Lock(i))
    ensures Inv(w, Apply(w, s, Lock(i)))
  {
    hide GoodReport, GoodOwn, GoodSetup, GoodParent, Tail, Frame, Frames, Sum, Sent;
    var s', r := Apply(w, s, Lock(i)), s.children[i].report;
    assert s.children[i] in s.children;
    Updates(s.children, i, Sending(r, 0));
    ParentUndisturbed(w, s, s');
    assert s'.log[s.taken..FinishedFrames(s')] == s.log[s.taken..FinishedFrames(s)];
    assert Frame(w, r)[..0] == [];
    assert forall c :: c in s.children ==> !c.Sending?;
  }

  lemma {:induction false} KeepWriteByte(w: Setup, s: State, i: nat)
    requires Inv(w, s) && Enabled(w, s, WriteByte(i))
    ensures Inv(w, Apply(w, s, WriteByte(i)))
  {
    hide GoodReport, GoodOwn, GoodSetup, GoodParent, Tail, Frame, Frames, Sum, Sent;
    var s', c := Apply(w, s, WriteByte(i)), s.children[i];
    assert c in s.children;
    Updates(s.children, i, c.(sent := c.sent + 1));
    ParentUndisturbed(w, s, s');
    var frame := Frame(w, c.report);
    assert frame[..c.sent + 1] == frame[..c.sent] + [frame[c.sent]];
    OneSender(s, i);
  }

  /** Only one child at a time is sending. */
  lemma {:induction false} OneSender(s: State, i: nat)
    requires InvLock(s) && i < |s.children| && s.children[i].Sending?
    ensures forall j :: 0 <= j < |s.children| && j != i ==> !s.children[j].Sending?
  {
    forall j | 0 <= j < |s.children| && j != i ensures !s.children[j].Sending? {
      var cs := s.children[i := Released(s.children[i].report)];
      SumUpdate(s.children, Sends, i, cs[i]);
      SumAtLeast(cs, Sends, j);
    }
  }

  lemma {:induction false} SumAtLeast(cs: seq<Child>, f: Child -> nat, i: nat)
    requires i < |cs|
    ensures f(cs[i]) <= Sum(cs, f)
  {
    if i < |cs| - 1 {
      SumAtLeast(cs[..|cs| - 1], f, i);
    }
  }

  lemma {:induction false} KeepUnlock(w: Setup, s: State, i: nat)
    requires Inv(w, s) && Enabled(w, s, Unlock(i))
    ensures Inv(w, Apply(w, s, Unlock(i)))
  {
    hide GoodReport, GoodOwn, GoodSetup, GoodParent, Tail, Frame, Frames, Sum, Sent;
    var s', c := Apply(w, s, Unlock(i)), s.children[i];
    assert c in s.children;
    Updates(s.children, i, Released(c.report));
    OneSender(s, i);
    assert InvProcesses(w, s') && InvLock(s');
    ParentUndisturbed(w, s, s');
    var whole := s.log[s.taken..FinishedFrames(s)];
    assert s.log[s.taken..FinishedFrames(s')] == whole + [c.report];
    FramesSnoc(w, whole, c.report);
    var frame := Frame(w, c.report);
    assert frame[..c.sent] == frame;
  }

  lemma {:induction false} KeepParentOp(w: Setup, s: State, time: int)
    requires Inv(w, s) && Enabled(w, s, ParentOp(time))
    ensures Inv(w, Apply(w, s, ParentOp(time)))
  {
    hide GoodReport, GoodOwn, GoodSetup, Frame, Frames, Sum, Sent, RunParentOp;
    var s' := Apply(w, s, ParentOp(time));
    RunParentOpKeepsGood(w, s.own, s.parent.todo, time);
    assert InvProcesses(w, s') && InvLock(s');
    assert GoodParent(w, s') && Tail(w, s') == Tail(w, s) == [];
    SameTail(w, s, s');
  }

  lemma {:induction false} KeepSync(w: Setup, s: State)
    requires Inv(w, s) && Enabled(w, s, Sync)
    ensures Inv(w, Apply(w, s, Sync))
  {
    hide GoodReport, GoodOwn, GoodSetup, Frame, Frames, Sum, Sent;
    var s' := Apply(w, s, Sync);
    assert InvProcesses(w, s') && InvLock(s');
    assert s.log[..0] == [];
    assert GoodParent(w, s') && Tail(w, s') == Tail(w, s) == [];
    SameTail(w, s, s');
  }

  lemma {:induction false} SameTail(w: Setup, s: State, s': State)
    requires Inv(w, s) && InvLock(s')
    requires s'.children == s.children && s'.sem == s.sem && s'.log == s.log && s'.pipe == s.pipe && s'.taken == s.taken
    requires GoodParent(w, s') && Tail(w, s') == Tail(w, s)
    ensures InvPipe(w, s')
  {
    hide GoodReport, GoodOwn, GoodSetup, Frame, Frames, Sum, Sent, AbsorbAll, Tail, GoodParent;
    KeepPipe(w, s, s');
  }

  lemma {:induction false} KeepNoMoreChildren(w: Setup, s: State)
    requires Inv(w, s) && Enabled(w, s, NoMoreChildren)
    ensures Inv(w, Apply(w, s, NoMoreChildren))
  {
    hide GoodReport, GoodOwn, GoodSetup, Frame, Frames, Sum, Sent, AbsorbAll;
    var s' := Apply(w, s, NoMoreChildren);
    assert InvProcesses(w, s') && InvLock(s');
    assert GoodParent(w, s') && Tail(w, s') == Tail(w, s) == [];
    SameTail(w, s, s');
  }

  lemma {:induction false} KeepReap(w: Setup, s: State, i: nat)
    requires Inv(w, s) && Enabled(w, s, Reap(i))
    ensures Inv(w, Apply(w, s, Reap(i)))
  {
    hide GoodReport, GoodOwn, GoodSetup, Frame, Frames, Sum, Sent, AbsorbAll;
    var s', c := Apply(w, s, Reap(i)), s.children[i];
    assert c in s.children;
    Updates(s.children, i, Reaped(c.report));
    assert InvProcesses(w, s') && InvLock(s');
  }

  // ----- The parent reads

  lemma {:induction false} ShotsBound(todo: seq<Op>, kind: string)
    ensures Shots(todo, kind) <= |todo|
  {
    if todo != [] {
      ShotsBound(todo[1..], kind);
    }
  }

  /** A good report crosses the pipe unchanged. */
  lemma {:induction false} GoodReportSendable(w: Setup, r: Report)
    requires GoodSetup(w) && GoodReport(w, r)
    ensures IsInt(r.connectTime) && forall i :: 0 <= i < |w.kinds| ==> Sendable(RecordsOf(w.kinds, r.table)[i])
  {
    forall i | 0 <= i < |w.kinds| ensures Sendable(RecordsOf(w.kinds, r.table)[i]) {
      var k := w.kinds[i];
      RecordsAt(w.kinds, r.table, i);
      ShotsBound(w.program, k);
      assert k in w.kinds;
    }
  }

  /** When the parent has reaped a child, a whole frame is at the head of the pipe: not
      necessarily that child's. */
  lemma {:induction false} WholeFrameAtHead(w: Setup, s: State)
    requires Inv(w, s) && s.parent.AtConnect?
    ensures s.taken < FinishedFrames(s) && Frame(w, s.log[s.taken]) <= s.pipe
    ensures forall partial :: PipeIs(w, s, partial) ==>
              s.pipe == Frame(w, s.log[s.taken]) + (Frames(w, s.log[s.taken + 1..FinishedFrames(s)]) + partial)
  {
    hide GoodReport, GoodOwn, GoodSetup, Frame, Sum, Sent, AbsorbAll;
    SumMonotone(s.children, IsReaped, Finished);
    var whole := s.log[s.taken..FinishedFrames(s)];
    var rest := s.log[s.taken + 1..FinishedFrames(s)];
    assert whole[0] == s.log[s.taken] && whole[1..] == rest;
    forall partial | PipeIs(w, s, partial)
      ensures s.pipe == Frame(w, s.log[s.taken]) + (Frames(w, rest) + partial)
    {
      assert s.pipe == [] + (Frame(w, whole[0]) + Frames(w, rest)) + partial;
      Assoc(Frame(w, whole[0]), Frames(w, rest), partial);
    }
    if s.sem == 0 {
      var c := Sender(s.children);
      assert PipeIs(w, s, Frame(w, c.report)[..c.sent]);
    } else {
      assert PipeIs(w, s, []);
    }
  }

  lemma {:induction false} Sender(cs: seq<Child>) returns (c: Child)
    requires Sum(cs, Sends) > 0
    ensures c in cs && c.Sending?
  {
    if cs[|cs| - 1].Sending? {
      c := cs[|cs| - 1];
    } else {
      c := Sender(cs[..|cs| - 1]);
    }
  }

  /** Reading takes from the front of the pipe only. */
  lemma {:induction false} KeepPipe(w: Setup, s: State, s': State)
    requires Inv(w, s) && InvLock(s')
    requires s'.children == s.children && s'.sem == s.sem && s'.log == s.log && GoodParent(w, s')
    requires forall partial :: PipeIs(w, s, partial) ==> PipeIs(w, s', partial)
    ensures InvPipe(w, s')
  {
    hide GoodReport, GoodOwn, GoodSetup, Frame, Frames, Sum, Sent, AbsorbAll, Tail, GoodParent, PipeIs;
  }

  lemma {:induction false} KeepReadConnect(w: Setup, s: State)
    requires Inv(w, s) && s.parent.AtConnect? && Readable(s)
    ensures Inv(w, ReadSome(s))
  {
    hide GoodReport, GoodOwn, GoodSetup, Sum, Sent, AbsorbAll, AbsorbConnect, Frames, DecodeInt, EncodeInt,
      EncodeReport;
    WholeFrameAtHead(w, s);
    var s', r := ReadSome(s), s.log[s.taken];
    GoodReportSendable(w, r);
    IntRoundTrip(r.connectTime);
    assert s.pipe[..4] == Frame(w, r)[..4] == EncodeInt(r.connectTime);
    assert s'.taken == s.taken + 1 && s'.tally == AbsorbConnect(s.tally, r.connectTime);
    assert InvProcesses(w, s') && InvLock(s');
    assert GoodParent(w, s');
    forall partial | PipeIs(w, s, partial) ensures PipeIs(w, s', partial) {
      var rest := Frames(w, s.log[s.taken + 1..FinishedFrames(s)]) + partial;
      assert s.pipe == EncodeInt(r.connectTime) + (EncodeReport(RecordsOf(w.kinds, r.table)) + rest);
    }
    KeepPipe(w, s, s');
  }

  lemma {:induction false} AbsorbKeepsKinds(t: Tally, rs: seq<Report>)
    ensures AbsorbAll(t, rs).table.Keys == t.table.Keys
  {
    if rs != [] {
      AbsorbKeepsKinds(t, rs[..|rs| - 1]);
    }
  }

  /** Merging all the records of a report amounts to absorbing it. */
  lemma {:induction false} AbsorbByRecords(w: Setup, t: Tally, r: Report)
    requires Distinct(w.kinds)
    requires (forall k :: k in w.kinds <==> k in t.table) && forall k :: k in w.kinds <==> k in r.table
    ensures var rs := RecordsOf(w.kinds, r.table);
            && (forall r :: r in rs ==> r.kind in t.table)
            && AbsorbConnect(t, r.connectTime).(table := MergeAll(t.table, rs)) == Absorb(t, r)
  {
    hide Merge;
    MergeRecordsOf(t.table, w.kinds, r.table);
    assert MergeTables(t.table, r.table) == MergeAll(t.table, RecordsOf(w.kinds, r.table));
  }

  lemma {:induction false} AllUnread(w: Setup, s: State)
    requires Inv(w, s) && s.parent.AtCount?
    ensures var rs := RecordsOf(w.kinds, s.log[s.taken - 1].table);
            && (forall k :: k in w.kinds <==> k in s.tally.table) && (forall r :: r in rs ==> r.kind in s.tally.table)
            && s.tally.(table := MergeAll(s.tally.table, rs)) == AbsorbAll(s.own, s.log[..s.taken])
  {
    hide Sum, Sent, InvPipe, Absorb, AbsorbAll, RecordsOf, MergeAll;
    var r, before := s.log[s.taken - 1], s.log[..s.taken - 1];
    assert s.log[..s.taken] == before + [r] && r in s.log;
    AbsorbLast(s.own, before, r);
    AbsorbKeepsKinds(s.own, before);
    AbsorbByRecords(w, AbsorbAll(s.own, before), r);
  }

  /** The pipe starts with what is left of the frame being read. */
  lemma {:induction false} PipeHead(w: Setup, s: State)
    requires Inv(w, s)
    ensures Tail(w, s) <= s.pipe
  {
    hide GoodReport, GoodOwn, GoodSetup, Frame, Frames, Sum, Sent, AbsorbAll, Tail;
    if s.sem == 0 {
      var c := Sender(s.children);
    }
  }

  /** A read in the middle of a frame takes bytes of that frame. */
  lemma {:induction false} KeepPipeWithinFrame(w: Setup, s: State, s': State, eaten: nat)
    requires Inv(w, s) && InvLock(s')
    requires s'.children == s.children && s'.sem == s.sem && s'.log == s.log && s'.taken == s.taken
    requires GoodParent(w, s') && eaten <= |Tail(w, s)| && Tail(w, s') == Tail(w, s)[eaten..]
    requires |Tail(w, s)| <= |s.pipe| && s'.pipe == s.pipe[eaten..]
    ensures InvPipe(w, s')
  {
    hide GoodReport, GoodOwn, GoodSetup, Frame, Frames, Sum, Sent, AbsorbAll, Tail, GoodParent;
    forall partial | PipeIs(w, s, partial) ensures PipeIs(w, s', partial) {
      var rest := Frames(w, s.log[s.taken..FinishedFrames(s)]) + partial;
      assert s.pipe == Tail(w, s) + rest;
      assert s'.pipe == Tail(w, s') + rest;
    }
    KeepPipe(w, s, s');
  }

  lemma Nothing(t: Table)
    ensures MergeAll(t, []) == t && EncodeRecords([]) == []
  {
  }

  lemma CountHead(pipe: string, rs: seq<Record>)
    requires EncodeReport(rs) <= pipe
    ensures |EncodeReport(rs)| >= 1 && pipe != [] && pipe[0] == LowByte(|rs|)
    ensures EncodeReport(rs)[1..] == EncodeRecords(rs)
  {
  }

  lemma {:induction false} KeepReadCount(w: Setup, s: State)
    requires Inv(w, s) && s.parent.AtCount? && Readable(s)
    ensures Inv(w, ReadSome(s))
  {
    hide GoodReport, GoodOwn, Sum, Sent, AbsorbAll, AbsorbConnect, Frames, Frame, EncodeRecords, EncodeReport,
      MergeAll, RecordsOf, InvPipe, GoodProgram;
    var rs := RecordsOf(w.kinds, s.log[s.taken - 1].table);
    FrameSize(w, s.log[s.taken - 1]);
    AllUnread(w, s);
    PipeHead(w, s);
    CountHead(s.pipe, rs);
    assert rs[|w.kinds| - |w.kinds|..] == rs;
    var s' := ReadSome(s);
    Nothing(s.tally.table);
    assert |rs| == 0 ==> rs == [];
    assert InvProcesses(w, s') && InvLock(s');
    assert GoodParent(w, s');
    assert Tail(w, s') == EncodeRecords(rs);
    KeepPipeWithinFrame(w, s, s', 1);
  }

  lemma {:induction false} KeepReadLength(w: Setup, s: State)
    requires Inv(w, s) && s.parent.AtLength? && Readable(s)
    ensures Inv(w, ReadSome(s))
  {
    hide GoodReport, GoodOwn, Sum, Sent, AbsorbAll, AbsorbConnect, Frames, Frame, MergeAll, RecordsOf,
      InvPipe, GoodSetup, EncodeStats;
    var left := s.parent.left;
    var rs := Unread(w, s, left);
    FirstUnread(w, s, left);
    PipeHead(w, s);
    assert EncodeRecords(rs) == EncodeRecord(rs[0]) + EncodeRecords(rs[1..]);
    assert s.pipe[0] == LowByte(|rs[0].kind|);
    var s' := ReadSome(s);
    assert InvProcesses(w, s') && InvLock(s');
    assert Unread(w, s', left) == rs;
    assert GoodParent(w, s');
    KeepPipeWithinFrame(w, s, s', 1);
  }

  /** The next record to be read survives the trip. */
  lemma {:induction false} FirstUnread(w: Setup, s: State, left: nat)
    requires Inv(w, s) && s.taken > 0 && 0 < left <= |w.kinds|
    ensures Sendable(Unread(w, s, left)[0])
  {
    hide GoodOwn, Sum, Sent, InvPipe, GoodParent, RecordsOf, Sendable;
    var r := s.log[s.taken - 1];
    assert r in s.log;
    GoodReportSendable(w, r);
  }

  lemma {:induction false} KeepReadBody(w: Setup, s: State)
    requires Inv(w, s) && s.parent.AtBody? && Readable(s)
    ensures Inv(w, ReadSome(s))
  {
    hide GoodReport, GoodOwn, Sum, Sent, AbsorbAll, AbsorbConnect, Frames, Frame, RecordsOf, Merge,
      InvPipe, GoodSetup, EncodeStats, DecodeStats, EncodeRecord, UpTo;
    var left, len := s.parent.left, s.parent.len;
    var rs := Unread(w, s, left);
    FirstUnread(w, s, left);
    PipeHead(w, s);
    BodyHead(s.pipe, rs);
    var s' := ReadSome(s);
    assert rs[0] in rs;
    Nothing(s'.tally.table);
    assert InvProcesses(w, s') && InvLock(s');
    assert left > 1 ==> Unread(w, s', left - 1) == rs[1..];
    assert left == 1 ==> rs[1..] == [];
    assert GoodParent(w, s');
    assert Tail(w, s') == EncodeRecords(rs[1..]);
    KeepPipeWithinFrame(w, s, s', len + 12);
  }

  /** The body of the next record at the head of the pipe. */
  lemma {:induction false} BodyHead(pipe: string, rs: seq<Record>)
    requires rs != [] && Sendable(rs[0]) && EncodeRecords(rs)[1..] <= pipe
    ensures var len := |rs[0].kind|;
            && |pipe| >= len + 12 && UpTo(pipe[..len], NUL) == rs[0].kind
            && DecodeStats(pipe[len..len + 12]) == rs[0].stats
            && |EncodeRecords(rs)[1..]| >= len + 12 && EncodeRecords(rs)[1..][len + 12..] == EncodeRecords(rs[1..])
  {
    hide DecodeStats, EncodeStats, EncodeRecords, EncodeRecord, UpTo;
    var r := rs[0];
    RecordsHead(rs);
    Slices(pipe, r.kind, EncodeStats(r.stats), EncodeRecords(rs[1..]));
    StatsRoundTrip(r.stats);
  }

  lemma {:induction false} RecordsHead(rs: seq<Record>)
    requires rs != []
    ensures EncodeRecords(rs) != []
    ensures EncodeRecords(rs)[1..] == rs[0].kind + (EncodeStats(rs[0].stats) + EncodeRecords(rs[1..]))
  {
    hide EncodeStats;
    var r := rs[0];
    assert EncodeRecords(rs) == [LowByte(|r.kind|)] + (r.kind + (EncodeStats(r.stats) + EncodeRecords(rs[1..])));
  }

  lemma Slices(pipe: string, a: string, b: string, c: string)
    requires a + (b + c) <= pipe
    ensures pipe[..|a|] == a && pipe[|a|..|a| + |b|] == b && (a + (b + c))[|a| + |b|..] == c
  {
    var abc := a + (b + c);
    assert pipe[|a|..|a| + |b|] == abc[|a|..|a| + |b|];
  }
}
