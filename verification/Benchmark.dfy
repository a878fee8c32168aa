/** From the script to the printed report. */
module Benchmark {
  import opened CStrings
  import opened Reports
  import opened Codec
  import opened Barrels
  import opened Clients
  import opened Runs
  import opened History
  import opened Printed
  import opened Witnesses
  import S = Scripts
  import T = CollectionTheorems

  // ----- What the lines of a client do to its figures

  /** The connects and queries that executing some lines amounts to. */
  function OpsOf(lines: seq<S.Line>, acts: seq<Action>, rounds: int): seq<C.Op> {
    if lines == [] then []
    else
      match lines[0].call
      case Connect => [C.Connect] + OpsOf(lines[1..], acts, rounds)
      case SetNumRounds(n) => OpsOf(lines[1..], acts, n)
      case UnloadQueryBarrel => ProgramOf(ShotsOfRun(acts, rounds)) + OpsOf(lines[1..], acts, rounds)
      case _ => OpsOf(lines[1..], acts, rounds)
  }

  function RoundsAfter(lines: seq<S.Line>, rounds: int): int {
    if lines == [] then rounds
    else RoundsAfter(lines[1..], if lines[0].call.SetNumRounds? then lines[0].call.rounds else rounds)
  }

  /** How many rounds of the barrel some lines fire. */
  function RoundsFired(lines: seq<S.Line>, rounds: int): nat {
    if lines == [] then 0
    else
      match lines[0].call
      case SetNumRounds(n) => RoundsFired(lines[1..], n)
      case UnloadQueryBarrel => AtLeastZero(rounds) + RoundsFired(lines[1..], rounds)
      case _ => RoundsFired(lines[1..], rounds)
  }

  function ConnectLines(lines: seq<S.Line>): nat {
    if lines == [] then 0 else (if lines[0].call.Connect? then 1 else 0) + ConnectLines(lines[1..])
  }

  lemma {:induction false} UnloadCounted(acts: seq<Action>, rounds: int, ops: seq<C.Op>, kind: string)
    ensures var all := ProgramOf(ShotsOfRun(acts, rounds)) + ops;
            && C.Shots(all, kind) == AtLeastZero(rounds) * PerRound(acts, kind) + C.Shots(ops, kind)
            && C.Connects(all) == C.Connects(ops)
  {
    hide ProgramOf, ShotsOfRun, PerRound, C.Shots, C.Connects;
    ShotsConcat(ProgramOf(ShotsOfRun(acts, rounds)), ops, kind);
    ProgramCounted(ShotsOfRun(acts, rounds), kind);
    RunCounted(acts, rounds, kind);
  }

  /** The lines fire so many rounds of the barrel's shots, and connect so many times. */
  lemma {:induction false} OpsCounted(lines: seq<S.Line>, acts: seq<Action>, rounds: int, kind: string)
    ensures C.Shots(OpsOf(lines, acts, rounds), kind) == RoundsFired(lines, rounds) * PerRound(acts, kind)
    ensures C.Connects(OpsOf(lines, acts, rounds)) == ConnectLines(lines)
  {
    hide ProgramOf, ShotsOfRun, PerRound;
    if lines != [] {
      var rest := lines[1..];
      match lines[0].call {
        case Connect =>
          OpsCounted(rest, acts, rounds, kind);
          assert ([C.Connect] + OpsOf(rest, acts, rounds))[1..] == OpsOf(rest, acts, rounds);
        case SetNumRounds(n) =>
          OpsCounted(rest, acts, n, kind);
        case UnloadQueryBarrel =>
          OpsCounted(rest, acts, rounds, kind);
          UnloadCounted(acts, rounds, OpsOf(rest, acts, rounds), kind);
          Distribute(AtLeastZero(rounds), RoundsFired(rest, rounds), PerRound(acts, kind));
        case _ =>
          OpsCounted(rest, acts, rounds, kind);
      }
    }
  }

  // ----- The parent before it forks

  /** What a client that was new has when it forks: exact counts, records of its query times, orderly
      times, and no child's connect time. */
  lemma {:induction false} AloneCounted(kinds: seq<string>, es: seq<C.Event>)
    requires Timed(es)
    ensures var t, c := Replay(Fresh(kinds), es), LastConnect(-1, es);
            && (forall k :: k in kinds <==> k in t.table)
            && (forall k :: k in kinds ==>
                  && t.table[k] == RecordAll(NO_STATS, QueryTimes(es, k))
                  && OrderlyTimes(t.table[k]) && t.table[k].maxTime <= MAX_INT
                  && t.table[k].numQueries == C.Shots(Ops(es), k))
            && t.reported == C.Connects(Ops(es)) && t.minConnect == -1 && t.maxConnect == 0 && -1 <= c <= MAX_INT
  {
    hide Replay, QueryTimes, LastConnect, RecordAll, C.Shots, C.Connects, Ops, Timed;
    var start := Fresh(kinds);
    ReplayConnects(start, es);
    TimesCounted(es, "");
    LastConnectInRange(es);
    forall k | k in kinds
      ensures var r := Replay(start, es).table;
              && k in r && r[k] == RecordAll(NO_STATS, QueryTimes(es, k))
              && OrderlyTimes(r[k]) && r[k].maxTime <= MAX_INT && r[k].numQueries == C.Shots(Ops(es), k)
    {
      ReplayRecord(start, es, k);
      TimesCounted(es, k);
      RecordInRange(QueryTimes(es, k));
    }
  }

  lemma {:induction false} LastConnectInRange(es: seq<C.Event>)
    requires Timed(es)
    ensures -1 <= LastConnect(-1, es) <= MAX_INT
  {
    if es != [] {
      var init, last := es[..|es| - 1], es[|es| - 1];
      assert last in es && forall e :: e in init ==> e in es;
      LastConnectInRange(init);
    }
  }

  lemma RecordInRange(ts: seq<int>)
    requires forall q :: q in ts ==> 0 <= q <= MAX_INT
    ensures var r := RecordAll(NO_STATS, ts); OrderlyTimes(r) && r.maxTime <= MAX_INT && r.numQueries == |ts|
  {
    assert forall i :: 0 <= i < |ts| ==> ts[i] in ts;
    RecordAfterRun(ts);
  }

  // ----- One benchmark

  /** A client's part of a script: lines before the fork, the fork into `threads`, the lines that
      every process executes, the actions of its barrel, the size of the pipe, and what the parent
      does before the fork. */
  datatype Plan = Plan(
    client: string, pre: seq<S.Line>, threads: int, mid: seq<S.Line>, post: seq<S.Line>,
    acts: seq<Action>, cap: nat, before: seq<C.Event>)

  /** The query types of the client: those of the barrel's charges, as parsing has made them. */
  function Kinds(b: Plan): seq<string> {
    KindsOf(b.acts)
  }

  function PreOps(b: Plan): seq<C.Op> {
    OpsOf(b.pre, b.acts, 0)
  }

  function MidOps(b: Plan): seq<C.Op> {
    OpsOf(b.mid, b.acts, RoundsAfter(b.pre, 0))
  }

  function Processes(b: Plan): nat {
    if b.threads > 1 then b.threads else 1
  }

  function Lines(b: Plan): seq<S.Line> {
    b.pre + [S.Line(b.client, S.CreateThreads(b.threads))] + b.mid + [S.Line(b.client, S.CollectThreads)] + b.post
  }

  ghost predicate GoodPlan(b: Plan) {
    && b.client != S.MAIN
    && S.OwnLines(b.pre, b.client) && S.OwnLines(b.mid, b.client) && S.OwnLines(b.post, b.client)
    && S.SingleThreaded(b.pre) && S.SingleThreaded(b.mid) && S.SingleThreaded(b.post)
    && 1 + SizeOfNames(Kinds(b)) <= MAX_REPORT_LEN && b.cap >= 5 + SizeOfNames(Kinds(b))
    && (forall k :: k in Kinds(b) ==> |k| <= 255 && NUL !in k)
    && Ops(b.before) == PreOps(b) && Timed(b.before)
    && |PreOps(b)| + |MidOps(b)| <= MAX_INT
  }

  /** The state at the fork. */
  ghost function SetupOf(b: Plan): C.Setup
    requires GoodPlan(b)
  {
    C.Setup(b.cap, Kinds(b), MidOps(b), Replay(Fresh(Kinds(b)), b.before), LastConnect(-1, b.before))
  }

  lemma {:induction false} ShotsAtMost(ops: seq<C.Op>, kind: string)
    ensures C.Shots(ops, kind) <= |ops|
  {
    if ops != [] {
      ShotsAtMost(ops[1..], kind);
    }
  }

  lemma {:induction false} SetupIsGood(b: Plan)
    requires GoodPlan(b)
    ensures C.GoodSetup(SetupOf(b))
  {
    hide OpsOf, Replay, LastConnect, KindsOf, SizeOfNames, Timed, Ops;
    KindsAreCharged(b.acts);
    AloneCounted(Kinds(b), b.before);
    forall k: string {
      ShotsAtMost(PreOps(b), k);
    }
  }

  /** The processes: the parent, and for `threads` above one as many children less one, each of which
      executes the middle lines and ends with `collect_threads`. */
  lemma {:induction false} ProcessesOfClient(b: Plan, script: seq<S.Line>, pids: nat)
    requires GoodPlan(b) && S.Own(script, b.client) == Lines(b)
    ensures var collect := S.Line(b.client, S.CollectThreads);
            S.Run([S.Forked(b.client, pids)], script) ==
            [S.Proc(b.client, pids, true, false, Lines(b))]
            + seq(Processes(b) - 1, _ => S.Proc(b.client, pids, false, true, b.mid + [collect]))
  {
    hide S.Run, S.Own, OpsOf, KindsOf, Ops, Timed;
    var p, create, collect :=
      S.Forked(b.client, pids), S.Line(b.client, S.CreateThreads(b.threads)), S.Line(b.client, S.CollectThreads);
    S.OnlyOwnLines([p], script, b.client);
    S.ThreadsExecuteTheMiddle(p, b.pre, b.threads, b.mid, b.post, create, collect);
    assert [] + Lines(b) == Lines(b);
    assert seq(if b.threads > 1 then b.threads - 1 else 0, _ => S.Proc(b.client, pids, false, true, b.mid + [collect]))
        == seq(Processes(b) - 1, _ => S.Proc(b.client, pids, false, true, b.mid + [collect]));
  }

  lemma {:induction false} OpsOfConcat(a: seq<S.Line>, b: seq<S.Line>, acts: seq<Action>, rounds: int)
    ensures RoundsAfter(a + b, rounds) == RoundsAfter(b, RoundsAfter(a, rounds))
    ensures OpsOf(a + b, acts, rounds) == OpsOf(a, acts, rounds) + OpsOf(b, acts, RoundsAfter(a, rounds))
  {
    hide ProgramOf, ShotsOfRun;
    if a == [] {
      assert a + b == b;
    } else {
      assert (a + b)[1..] == a[1..] + b && (a + b)[0] == a[0];
      OpsOfConcat(a[1..], b, acts, if a[0].call.SetNumRounds? then a[0].call.rounds else rounds);
    }
  }

  /** The lines `create_threads` and `collect_threads` are no operations. */
  lemma {:induction false} LinesAre(b: Plan)
    ensures OpsOf(b.mid + [S.Line(b.client, S.CollectThreads)], b.acts, RoundsAfter(b.pre, 0)) == MidOps(b)
    ensures OpsOf(b.pre + [S.Line(b.client, S.CreateThreads(b.threads))] + b.mid, b.acts, 0) == PreOps(b) + MidOps(b)
  {
    hide ProgramOf, ShotsOfRun;
    var create, collect := S.Line(b.client, S.CreateThreads(b.threads)), S.Line(b.client, S.CollectThreads);
    assert [create][1..] == [] && [collect][1..] == [];
    OpsOfConcat(b.mid, [collect], b.acts, RoundsAfter(b.pre, 0));
    OpsOfConcat(b.pre, [create], b.acts, 0);
    OpsOfConcat(b.pre + [create], b.mid, b.acts, 0);
    assert PreOps(b) + [] == PreOps(b) && MidOps(b) + [] == MidOps(b);
  }

  /** From the script to the collection. A client's process and the script give as many processes as
      threads were asked for; what the lines of each between fork and collection amount to is the
      program of the collection, and those before it what the parent has done by then; and whatever
      times all this is to take, there is a run of the collection in which it does. */
  lemma {:induction false} ScriptRuns(
      b: Plan, script: seq<S.Line>, pids: nat, own: seq<C.Event>, pasts: seq<seq<C.Event>>) returns (s: C.State)
    requires GoodPlan(b) && S.Own(script, b.client) == Lines(b) && |pasts| == Processes(b) - 1
    requires Timed(own) && Ops(own) == MidOps(b)
    requires forall i :: 0 <= i < |pasts| ==> Timed(pasts[i]) && Ops(pasts[i]) == MidOps(b)
    ensures var ps := S.Run([S.Forked(b.client, pids)], script);
            && |ps| == Processes(b) && ps[0].log == Lines(b)
            && OpsOf(b.pre + [S.Line(b.client, S.CreateThreads(b.threads))] + b.mid, b.acts, 0) ==
               Ops(b.before) + SetupOf(b).program
            && forall i :: 1 <= i < |ps| ==>
                 ps[i].exited && OpsOf(ps[i].log, b.acts, RoundsAfter(b.pre, 0)) == SetupOf(b).program
    ensures T.Reachable(SetupOf(b), Processes(b) - 1, s) && s.parent.Done? && s.ownPast == own && s.past == pasts
  {
    hide S.Run, S.Own, OpsOf, KindsOf, Ops, Timed, T.Reachable, C.GoodSetup, Replay, LastConnect;
    ProcessesOfClient(b, script, pids);
    LinesAre(b);
    SetupIsGood(b);
    s := EveryPastOccurs(SetupOf(b), own, pasts);
  }

  /** How many queries of a type a process reports: those the parent fired before the fork, which it
      has inherited, and its own. */
  function PerProcess(b: Plan, kind: string): int {
    (RoundsFired(b.pre, 0) + RoundsFired(b.mid, RoundsAfter(b.pre, 0))) * PerRound(b.acts, kind)
  }

  /** How many queries of a type the processes of a benchmark fire together. */
  function Fired(b: Plan, kind: string): int {
    RoundsFired(b.pre, 0) * PerRound(b.acts, kind)
    + Processes(b) * (RoundsFired(b.mid, RoundsAfter(b.pre, 0)) * PerRound(b.acts, kind))
  }

  /** End to end. Whatever the interleaving of the processes, the report counts, for every type, as
      many queries per process as the parent fired before the fork and each process after it, and
      as many clients as there were connects of the parent and children. */
  lemma {:induction false} ReportedFigures(b: Plan, s: C.State, kind: string)
    requires GoodPlan(b) && kind in Kinds(b)
    requires T.Reachable(SetupOf(b), Processes(b) - 1, s) && s.parent.Done?
    ensures kind in s.tally.table
    ensures s.tally.table[kind].numQueries ==
            Processes(b) * PerProcess(b, kind)
    ensures s.tally.reported == ConnectLines(b.pre) + ConnectLines(b.mid) + Processes(b) - 1
  {
    hide T.Reachable, SetupOf, GoodPlan, C.GoodSetup, C.Inherited, C.Shots, C.Connects, RoundsFired, PerRound;
    SetupCounted(b, kind);
    T.EveryQueryCounted(SetupOf(b), Processes(b) - 1, s, kind);
    Distribute(RoundsFired(b.pre, 0), RoundsFired(b.mid, RoundsAfter(b.pre, 0)), PerRound(b.acts, kind));
  }

  lemma {:induction false} SetupCounted(b: Plan, kind: string)
    requires GoodPlan(b) && kind in Kinds(b)
    ensures var w := SetupOf(b);
            && C.GoodSetup(w) && w.kinds == Kinds(b)
            && C.Inherited(w, kind) == RoundsFired(b.pre, 0) * PerRound(b.acts, kind)
            && C.Shots(w.program, kind) == RoundsFired(b.mid, RoundsAfter(b.pre, 0)) * PerRound(b.acts, kind)
            && w.start.reported == ConnectLines(b.pre) && C.Connects(w.program) == ConnectLines(b.mid)
  {
    hide Replay, LastConnect, KindsOf, OpsOf, C.GoodSetup, RoundsFired, PerRound, C.Shots, C.Connects, Timed, Ops;
    SetupIsGood(b);
    AloneCounted(Kinds(b), b.before);
    OpsCounted(b.pre, b.acts, 0, kind);
    OpsCounted(b.mid, b.acts, RoundsAfter(b.pre, 0), kind);
  }

  /** And that is the number of queries in what the processes have done. */
  lemma {:induction false} FiredAreQueries(b: Plan, s: C.State, kind: string)
    requires GoodPlan(b) && kind in Kinds(b)
    requires T.Reachable(SetupOf(b), Processes(b) - 1, s) && s.parent.Done?
    ensures Fired(b, kind) == |QueryTimes(b.before, kind)| + |Flat(TimesOfAll([], s, kind))|
  {
    hide T.Reachable, SetupOf, C.GoodSetup, RoundsFired, PerRound, OpsOf, KindsOf, C.Shots, C.Connects,
      C.Inherited, QueryTimes, Flat, Ops, Timed;
    SetupCounted(b, kind);
    QueriesFired(SetupOf(b), Processes(b) - 1, s, kind);
    TimesCounted(b.before, kind);
    OpsCounted(b.pre, b.acts, 0, kind);
  }

  /** The printed times of a benchmark are the extremes of all its queries exactly if some process
      ended with the longest, the shortest: see `PrintedTimes`. */
  lemma {:induction false} PrintedTimesOfPlan(b: Plan, s: C.State, kind: string)
    requires GoodPlan(b) && kind in Kinds(b)
    requires T.Reachable(SetupOf(b), Processes(b) - 1, s) && s.parent.Done?
    ensures kind in s.tally.table
    ensures var r, ts := s.tally.table[kind], TimesOfAll(QueryTimes(b.before, kind), s, kind);
            && (IsMaximum(r.maxTime, Flat(ts)) <==> SomeLastIsLongest(ts))
            && (IsMinimum(r.minTime, Flat(ts)) <==>
                if PerProcess(b, kind) == 1 then 0 in Flat(ts) else SomeLastIsShortest(ts))
  {
    hide T.Reachable, C.GoodSetup, GoodPlan, SetupOf, RoundsFired, PerRound, C.Shots, C.Connects, C.Inherited,
      QueryTimes, Flat, SomeLastIsLongest, SomeLastIsShortest, TimesOfAll, IsMaximum, IsMinimum, RecordAll, KindsOf;
    SetupCounted(b, kind);
    RecordAtFork(b, kind);
    Distribute(RoundsFired(b.pre, 0), RoundsFired(b.mid, RoundsAfter(b.pre, 0)), PerRound(b.acts, kind));
    PrintedTimes(SetupOf(b), Processes(b) - 1, s, kind, QueryTimes(b.before, kind));
  }

  lemma {:induction false} RecordAtFork(b: Plan, kind: string)
    requires GoodPlan(b) && kind in Kinds(b)
    ensures var pre, t := QueryTimes(b.before, kind), SetupOf(b).start.table;
            && kind in t && t[kind] == RecordAll(NO_STATS, pre) && (forall q :: q in pre ==> 0 <= q)
            && |pre| == RoundsFired(b.pre, 0) * PerRound(b.acts, kind)
  {
    hide QueryTimes, Ops, Timed, Replay, LastConnect, RecordAll, OpsOf, KindsOf, PerRound, RoundsFired, C.Shots;
    AloneCounted(Kinds(b), b.before);
    TimesCounted(b.before, kind);
    OpsCounted(b.pre, b.acts, 0, kind);
  }

  /** The connect figures of a benchmark, over all its connects, those before the fork included: see
      `PrintedConnectTimes`. */
  lemma {:induction false} PrintedConnectTimesOfPlan(b: Plan, s: C.State)
    requires GoodPlan(b) && T.Reachable(SetupOf(b), Processes(b) - 1, s) && s.parent.Done?
    ensures (forall c :: c in s.children ==> c.Reaped?) && |s.past| == |s.children| == Processes(b) - 1
    ensures var pre := OwnConnects(b.before);
            var cs, all := ConnectTimes(T.ReportsOf(s.children)), AllConnects(pre, s);
            && (all != [] <==> ConnectLines(b.pre) + ConnectLines(b.mid) > 0)
            && (forall i :: 0 <= i < |cs| ==> cs[i] == LastTime(pre + OwnConnects(s.past[i])))
            && s.tally.totalConnect == Total(pre) + Total(OwnConnects(s.ownPast)) + Total(cs)
            && (all != [] ==>
                  && (IsMaximum(s.tally.maxConnect, all) <==> NoneAbove(all, cs))
                  && (IsMinimum(s.tally.minConnect, all) <==> NoneBelow(all, cs)))
            && (all == [] ==>
                  && s.tally.maxConnect == 0 && s.tally.minConnect == -1
                  && s.tally.totalConnect == 0 - (Processes(b) - 1) && s.tally.reported == Processes(b) - 1)
  {
    hide T.Reachable, C.GoodSetup, OpsOf, KindsOf, C.Connects, OwnConnects, Total, Ops, Timed, NoneAbove, NoneBelow,
      IsMaximum, IsMinimum, Replay, LastConnect, T.ReportsOf, ConnectTimes, Connected, AllConnects;
    SetupIsGood(b);
    SetupConnected(b);
    PrintedConnectTimes(SetupOf(b), Processes(b) - 1, s, OwnConnects(b.before));
    AllConnectsAre(SetupOf(b), Processes(b) - 1, s, OwnConnects(b.before), ConnectTimes(T.ReportsOf(s.children)));
    TimesCounted(b.before, "");
    OpsCounted(b.pre, b.acts, 0, "");
    OpsCounted(b.mid, b.acts, RoundsAfter(b.pre, 0), "");
  }

  lemma {:induction false} SetupConnected(b: Plan)
    requires GoodPlan(b)
    ensures Connected(SetupOf(b), OwnConnects(b.before))
  {
    hide OwnConnects, LastConnect, Replay, Ops, Timed, OpsOf, KindsOf;
    ReplayConnects(Fresh(Kinds(b)), b.before);
    LastConnectIs([], b.before);
    assert [] + OwnConnects(b.before) == OwnConnects(b.before);
    TimesCounted(b.before, "");
  }

  /** The report tells how many queries were fired exactly if the parent fired none before the
      fork, or did not fork: the children send in what they inherited. */
  lemma {:induction false} ReportIsTrue(b: Plan, s: C.State, kind: string)
    requires GoodPlan(b) && kind in Kinds(b)
    requires T.Reachable(SetupOf(b), Processes(b) - 1, s) && s.parent.Done?
    ensures kind in s.tally.table
    ensures s.tally.table[kind].numQueries == Fired(b, kind)
            <==> Processes(b) == 1 || RoundsFired(b.pre, 0) * PerRound(b.acts, kind) == 0
  {
    hide T.Reachable, SetupOf, GoodPlan, RoundsFired, PerRound;
    ReportedFigures(b, s, kind);
    var before, after := RoundsFired(b.pre, 0), RoundsFired(b.mid, RoundsAfter(b.pre, 0));
    Twice(Processes(b), before, after, PerRound(b.acts, kind));
  }

  lemma {:induction false} Twice(n: nat, x: nat, y: nat, each: nat)
    requires n >= 1
    ensures n * ((x + y) * each) == x * each + n * (y * each) <==> n == 1 || x * each == 0
  {
    var a, b := x * each, y * each;
    assert (x + y) * each == a + b;
    assert n * (a + b) == n * a + n * b;
    assert n * a == a + (n - 1) * a;
    if n > 1 && a > 0 {
      assert (n - 1) * a > 0;
    }
  }

  const ONE_QUERY := Query("select 1", "q", "t", false)

  /** One round of one query fired before two threads are created, and nothing after it. */
  const EARLY_FIRE := Plan(
    "c", [S.Line("c", S.SetNumRounds(1)), S.Line("c", S.UnloadQueryBarrel)], 2, [], [],
    [Charge(ONE_QUERY, 1)], 1028, [C.Event(C.Shot("t"), 0)])

  lemma {:induction false} EarlyFireOps()
    ensures PreOps(EARLY_FIRE) == [C.Shot("t")] && MidOps(EARLY_FIRE) == []
    ensures RoundsFired(EARLY_FIRE.pre, 0) == 1 && RoundsFired(EARLY_FIRE.mid, RoundsAfter(EARLY_FIRE.pre, 0)) == 0
  {
    var lines, acts := EARLY_FIRE.pre, EARLY_FIRE.acts;
    assert lines[1..] == [S.Line("c", S.UnloadQueryBarrel)] && lines[1..][1..] == [] && acts[1..] == [];
    assert Copies(ONE_QUERY, 1) == [ONE_QUERY] + Copies(ONE_QUERY, 0) == [ONE_QUERY];
    assert ShotsOfRound(acts) == [ONE_QUERY] + ShotsOfRound([]) == [ONE_QUERY];
    assert ShotsOfRun(acts, 1) == [ONE_QUERY] + ShotsOfRun(acts, 0) == [ONE_QUERY];
    assert [ONE_QUERY][1..] == [];
    assert ProgramOf([ONE_QUERY]) == [C.Shot("t")];
    assert OpsOf(lines[1..], acts, 1) == [C.Shot("t")] + OpsOf([], acts, 1) == [C.Shot("t")];
  }

  lemma {:induction false} EarlyFireIsGood()
    ensures GoodPlan(EARLY_FIRE) && "t" in Kinds(EARLY_FIRE) && PerRound(EARLY_FIRE.acts, "t") == 1
  {
    hide OpsOf, KindsOf, PerRound;
    EarlyFireOps();
    OneCharge(ONE_QUERY, 1);
    assert ["t"][1..] == [] && SizeOfNames(["t"]) == 14;
    assert EARLY_FIRE.before[..0] == [];
  }

  /** An instance of a wrong report: one query was fired, and two are reported. */
  lemma {:induction false} CountedTwice() returns (s: C.State)
    ensures GoodPlan(EARLY_FIRE) && Processes(EARLY_FIRE) == 2
    ensures T.Reachable(SetupOf(EARLY_FIRE), 1, s) && s.parent.Done?
    ensures Fired(EARLY_FIRE, "t") == 1
    ensures "t" in s.tally.table && s.tally.table["t"].numQueries == 2
  {
    hide GoodPlan, SetupOf, T.Reachable, C.Legal, C.After, C.Inv, RoundsFired, RoundsAfter, PerRound, KindsOf;
    EarlyFireOps();
    EarlyFireIsGood();
    SetupIsGood(EARLY_FIRE);
    var w := SetupOf(EARLY_FIRE);
    T.InitialInv(w, 1);
    var steps := T.CanComplete(w, C.Initial(w, 1));
    T.ReachInitial(w, 1);
    T.ReachRun(w, 1, C.Initial(w, 1), steps);
    s := C.After(w, C.Initial(w, 1), steps);
    ReportedFigures(EARLY_FIRE, s, "t");
  }

  /** The usual script: rounds set, threads created, connect, fire. */
  ghost predicate Usual(b: Plan, rounds: int) {
    && b.pre == [S.Line(b.client, S.SetNumRounds(rounds))]
    && b.mid == [S.Line(b.client, S.Connect), S.Line(b.client, S.UnloadQueryBarrel)]
  }

  /** N threads, R rounds, a barrel: N * R * shots queries of each type, from N clients. */
  lemma {:induction false} UsualFigures(b: Plan, rounds: int, s: C.State, kind: string)
    requires GoodPlan(b) && kind in Kinds(b) && Usual(b, rounds)
    requires T.Reachable(SetupOf(b), Processes(b) - 1, s) && s.parent.Done?
    ensures kind in s.tally.table && s.tally.reported == Processes(b)
    ensures s.tally.table[kind].numQueries == Processes(b) * (AtLeastZero(rounds) * PerRound(b.acts, kind))
  {
    hide T.Reachable, SetupOf, GoodPlan, PerRound;
    ReportedFigures(b, s, kind);
    assert b.pre[1..] == [] && b.mid[1..] == [S.Line(b.client, S.UnloadQueryBarrel)] && b.mid[1..][1..] == [];
    assert RoundsAfter(b.pre, 0) == rounds;
    assert RoundsFired(b.mid, rounds) == RoundsFired(b.mid[1..], rounds) == AtLeastZero(rounds);
    assert ConnectLines(b.mid) == 1 + ConnectLines(b.mid[1..]) == 1;
  }

  /** The barrel of the tutorial, whatever its query is called. */
  lemma {:induction false} TutorialBarrel(q: Query, pool: map<string, Query>)
    requires q.name in pool && pool[q.name] == q && IsToken(q.name) && q.name[0] != '-'
    ensures var r := Scan("2 " + q.name, [], START, pool); r.Parse? && r.actions == [Charge(q, 2)]
  {
    hide Scan, Decimal;
    var acts, d := [Charge(q, 2)], Decimal(2);
    DecimalTwo();
    assert acts[1..] == [] && [q.name][1..] == [] && [1][1..] == [];
    var items := PrintAll(acts, pool);
    assert items == [Shots(d, q.name)] && items[1..] == [];
    assert AllTokens(items) == [d, q.name];
    BarrelRoundTrip(acts, pool, [0, 1], 0, START);
    assert [d, q.name][1..] == [q.name] && [0, 1][1..] == [1];
    assert Repeat(' ', 1) == " " && Spread([q.name], [1]) == " " + q.name;
    assert Spread([d, q.name], [0, 1]) + [] == "2 " + q.name;
  }

  lemma DecimalTwo()
    ensures Decimal(2) == "2"
  {
    assert ('0' as int + 2) as char == '2';
  }

  /** The tutorial: 10 clients, 1000 rounds, a barrel text of two shots, 20000 queries. */
  lemma {:induction false} TutorialFigures(b: Plan, s: C.State, q: Query, pool: map<string, Query>)
    requires q.name in pool && pool[q.name] == q && IsToken(q.name) && q.name[0] != '-'
    requires var r := Scan("2 " + q.name, [], START, pool); r.Parse? ==> b.acts == r.actions
    requires GoodPlan(b) && q.kind in Kinds(b) && Usual(b, 1000) && b.threads == 10
    requires T.Reachable(SetupOf(b), 9, s) && s.parent.Done?
    ensures q.kind in s.tally.table && s.tally.table[q.kind].numQueries == 20000 && s.tally.reported == 10
  {
    hide T.Reachable, SetupOf, GoodPlan, Scan;
    TutorialBarrel(q, pool);
    OneCharge(q, 2);
    UsualFigures(b, 1000, s, q.kind);
  }

  lemma OneCharge(q: Query, n: nat)
    ensures KindsOf([Charge(q, n)]) == [q.kind] && PerRound([Charge(q, n)], q.kind) == n
  {
    var acts := [Charge(q, n)];
    assert acts[..0] == [] && acts[1..] == [];
  }
}
