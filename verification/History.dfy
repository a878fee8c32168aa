/** What the processes of a collection have done, and what the printed times and connect times say
    about it. */
module History {
  import opened CStrings
  import opened Reports
  import opened Codec
  import opened Collection
  import opened CollectionTheorems

  // ----- What events amount to

  function Ops(es: seq<Event>): (ops: seq<Op>)
    ensures |ops| == |es| && forall i :: 0 <= i < |es| ==> ops[i] == es[i].op
  {
    if es == [] then [] else Ops(es[..|es| - 1]) + [es[|es| - 1].op]
  }

  /** The figures of the parent thread after some events. */
  function Replay(t: Tally, es: seq<Event>): Tally {
    if es == [] then t
    else
      var last := es[|es| - 1];
      RunParentOp(Replay(t, es[..|es| - 1]), last.op, last.time)
  }

  function LastConnect(c: int, es: seq<Event>): int {
    if es == [] then c
    else if es[|es| - 1].op.Connect? then es[|es| - 1].time
    else LastConnect(c, es[..|es| - 1])
  }

  /** How long the queries of a type took. */
  function QueryTimes(es: seq<Event>, kind: string): seq<int> {
    if es == [] then []
    else
      var last := es[|es| - 1];
      QueryTimes(es[..|es| - 1], kind) + (if last.op == Shot(kind) then [last.time] else [])
  }

  /** How long the connects took. */
  function OwnConnects(es: seq<Event>): seq<int> {
    if es == [] then []
    else
      var last := es[|es| - 1];
      OwnConnects(es[..|es| - 1]) + (if last.op.Connect? then [last.time] else [])
  }

  ghost predicate Timed(es: seq<Event>) {
    forall e :: e in es ==> 0 <= e.time <= MAX_INT
  }

  lemma Snoc(es: seq<Event>, e: Event, t: Tally, c: int)
    ensures Ops(es + [e]) == Ops(es) + [e.op]
    ensures Replay(t, es + [e]) == RunParentOp(Replay(t, es), e.op, e.time)
    ensures LastConnect(c, es + [e]) == if e.op.Connect? then e.time else LastConnect(c, es)
  {
    assert (es + [e])[..|es|] == es;
  }

  lemma {:induction false} ShotsConcat(a: seq<Op>, b: seq<Op>, kind: string)
    ensures Shots(a + b, kind) == Shots(a, kind) + Shots(b, kind)
    ensures Connects(a + b) == Connects(a) + Connects(b)
  {
    if a == [] {
      assert a + b == b;
    } else {
      assert (a + b)[1..] == a[1..] + b;
      ShotsConcat(a[1..], b, kind);
    }
  }

  lemma {:induction false} ShotsSnoc(ops: seq<Op>, op: Op, kind: string)
    ensures Shots(ops + [op], kind) == Shots(ops, kind) + (if op == Shot(kind) then 1 else 0)
    ensures Connects(ops + [op]) == Connects(ops) + (if op.Connect? then 1 else 0)
  {
    ShotsConcat(ops, [op], kind);
    assert [op][1..] == [];
  }

  /** As many times as operations, none of them negative. */
  lemma {:induction false} TimesCounted(es: seq<Event>, kind: string)
    requires Timed(es)
    ensures |QueryTimes(es, kind)| == Shots(Ops(es), kind) && |OwnConnects(es)| == Connects(Ops(es))
    ensures forall q :: q in QueryTimes(es, kind) || q in OwnConnects(es) ==> 0 <= q <= MAX_INT
  {
    if es != [] {
      var init, last := es[..|es| - 1], es[|es| - 1];
      assert es == init + [last];
      TimesCounted(init, kind);
      ShotsSnoc(Ops(init), last.op, kind);
    }
  }

  lemma {:induction false} RecordAllConcat(s: Stats, a: seq<int>, b: seq<int>)
    ensures RecordAll(RecordAll(s, a), b) == RecordAll(s, a + b)
    decreases |b|
  {
    if b == [] {
      assert a + b == a;
    } else {
      var init := b[..|b| - 1];
      RecordAllConcat(s, a, init);
      assert (a + b)[..|a + b| - 1] == a + init;
    }
  }

  /** A record after some events: that of its query times. */
  lemma {:induction false} ReplayRecord(t: Tally, es: seq<Event>, kind: string)
    requires kind in t.table
    ensures kind in Replay(t, es).table
    ensures Replay(t, es).table[kind] == RecordAll(t.table[kind], QueryTimes(es, kind))
  {
    if es != [] {
      var init, last := es[..|es| - 1], es[|es| - 1];
      ReplayRecord(t, init, kind);
      var times := QueryTimes(init, kind);
      assert times + [] == times && (times + [last.time])[..|times|] == times;
    }
  }

  /** The connect figures after some events: every connect counts in the total, none in the
      extremes. */
  lemma {:induction false} ReplayConnects(t: Tally, es: seq<Event>)
    ensures var r, own := Replay(t, es), OwnConnects(es);
            && r.totalConnect == t.totalConnect + Total(own) && r.reported == t.reported + |own|
            && r.minConnect == t.minConnect && r.maxConnect == t.maxConnect && r.table.Keys == t.table.Keys
  {
    if es != [] {
      var init, last := es[..|es| - 1], es[|es| - 1];
      ReplayConnects(t, init);
      TotalSnoc(OwnConnects(init), last.time);
      assert OwnConnects(init) + [] == OwnConnects(init);
    }
  }

  // ----- The history of every reachable state

  ghost predicate ChildPast(w: Setup, c: Child, es: seq<Event>) {
    && Timed(es)
    && if c.Running? then
         c.me.table == Replay(w.start, es).table && c.me.connectTime == LastConnect(w.connectTime, es)
         && Ops(es) + c.me.todo == w.program
       else
         c.report == Report(LastConnect(w.connectTime, es), Replay(w.start, es).table) && Ops(es) == w.program
  }

  ghost predicate ParentPast(w: Setup, s: State) {
    && Timed(s.ownPast) && s.own == Replay(w.start, s.ownPast)
    && if s.parent.Busy? then s.tally == s.own && Ops(s.ownPast) + s.parent.todo == w.program
       else Ops(s.ownPast) == w.program
  }

  ghost predicate InvPast(w: Setup, s: State) {
    && |s.past| == |s.children|
    && (forall i :: 0 <= i < |s.past| ==> ChildPast(w, s.children[i], s.past[i]))
    && ParentPast(w, s)
  }

  lemma {:induction false} ChildOpKeepsPast(w: Setup, p: Process, es: seq<Event>, time: int)
    requires ChildPast(w, Running(p), es) && p.todo != [] && 0 <= time <= MAX_INT
    ensures ChildPast(w, Running(RunOp(p, time)), es + [Event(p.todo[0], time)])
  {
    hide RecordShot;
    Snoc(es, Event(p.todo[0], time), w.start, w.connectTime);
    assert p.todo == [p.todo[0]] + p.todo[1..];
    Assoc(Ops(es), [p.todo[0]], p.todo[1..]);
  }

  lemma {:induction false} ParentOpKeepsPast(w: Setup, s: State, time: int)
    requires ParentPast(w, s) && Enabled(w, s, ParentOp(time))
    ensures ParentPast(w, Apply(w, s, ParentOp(time)))
  {
    hide RunParentOp;
    var todo := s.parent.todo;
    Snoc(s.ownPast, Event(todo[0], time), w.start, w.connectTime);
    assert todo == [todo[0]] + todo[1..];
    Assoc(Ops(s.ownPast), [todo[0]], todo[1..]);
  }

  /** A child that does not change what it has done or reports. */
  lemma QuietKeepsPast(w: Setup, c: Child, c': Child, es: seq<Event>)
    requires ChildPast(w, c, es) && !c'.Running?
    requires c.Running? ==> c.me.todo == [] && c'.report == Report(c.me.connectTime, c.me.table)
    requires !c.Running? ==> c'.report == c.report
    ensures ChildPast(w, c', es)
  {
    assert Ops(es) + [] == Ops(es);
  }

  lemma {:induction false} StepKeepsPast(w: Setup, s: State, step: Step)
    requires InvPast(w, s) && Enabled(w, s, step)
    ensures InvPast(w, Apply(w, s, step))
  {
    hide ChildPast, Replay, Timed, Frame, RunOp, RunParentOp, ReadSome;
    match step {
      case ChildOp(i, time) => ChildOpKeepsPast(w, s.children[i].me, s.past[i], time);
      case ParentOp(time) => ParentOpKeepsPast(w, s, time);
      case Sync => assert Ops(s.ownPast) + [] == Ops(s.ownPast);
      case Read => ReadKeepsPast(w, s);
      case NoMoreChildren =>
      case Poll(i) => QuietKeepsPast(w, s.children[i], Apply(w, s, step).children[i], s.past[i]);
      case Lock(i) => QuietKeepsPast(w, s.children[i], Apply(w, s, step).children[i], s.past[i]);
      case WriteByte(i) => QuietKeepsPast(w, s.children[i], Apply(w, s, step).children[i], s.past[i]);
      case Unlock(i) => QuietKeepsPast(w, s.children[i], Apply(w, s, step).children[i], s.past[i]);
      case Exit(i) => QuietKeepsPast(w, s.children[i], Apply(w, s, step).children[i], s.past[i]);
      case Reap(i) => QuietKeepsPast(w, s.children[i], Apply(w, s, step).children[i], s.past[i]);
    }
  }

  lemma ReadKeepsPast(w: Setup, s: State)
    requires Reading(s.parent)
    ensures var s' := ReadSome(s);
            && s'.children == s.children && s'.past == s.past && s'.ownPast == s.ownPast && s'.own == s.own
            && !s'.parent.Busy?
  {
  }

  lemma {:induction false} RunKeepsPast(w: Setup, s: State, steps: seq<Step>)
    requires InvPast(w, s) && Legal(w, s, steps)
    ensures InvPast(w, After(w, s, steps))
    decreases |steps|
  {
    hide InvPast, Enabled, Apply;
    if steps != [] {
      StepKeepsPast(w, s, steps[0]);
      RunKeepsPast(w, Apply(w, s, steps[0]), steps[1..]);
    }
  }

  lemma InitialPast(w: Setup, n: nat)
    ensures InvPast(w, Initial(w, n))
  {
    assert [] + w.program == w.program;
  }

  /** In every reachable state the counters and the connect time of each process are what its
      recorded past makes of those at the fork, and the past is as much of the program as is done. */
  lemma {:induction false} ReachablePast(w: Setup, n: nat, s: State)
    requires Reachable(w, n, s)
    ensures InvPast(w, s)
  {
    hide InvPast, Initial, Legal, After;
    var steps :| Legal(w, Initial(w, n), steps) && After(w, Initial(w, n), steps) == s;
    InitialPast(w, n);
    RunKeepsPast(w, Initial(w, n), steps);
  }
}
