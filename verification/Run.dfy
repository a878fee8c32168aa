/** Whole runs of a process: what a barrel fires, which words it draws, and how a process of the
    benchmark, as its methods define it, is a process of the collection protocol. */
module Runs {
  import opened CStrings
  import opened Reports
  import opened Codec
  import opened Dictionaries
  import opened Expander
  import opened Barrels
  import opened Clients
  import C = Collection

  // ----- How many queries a barrel fires

  function OfKind(qs: seq<Query>, kind: string): nat {
    if qs == [] then 0 else (if qs[0].kind == kind then 1 else 0) + OfKind(qs[1..], kind)
  }

  lemma {:induction false} OfKindConcat(a: seq<Query>, b: seq<Query>, kind: string)
    ensures OfKind(a + b, kind) == OfKind(a, kind) + OfKind(b, kind)
  {
    if a == [] {
      assert a + b == b;
    } else {
      assert (a + b)[1..] == a[1..] + b;
      OfKindConcat(a[1..], b, kind);
    }
  }

  function AtLeastZero(n: int): nat {
    if n > 0 then n else 0
  }

  /** The shots of one round: the sum over the charges of the type. */
  function PerRound(acts: seq<Action>, kind: string): nat {
    if acts == [] then 0
    else (if acts[0].Charge? && acts[0].query.kind == kind then AtLeastZero(acts[0].numShots) else 0)
         + PerRound(acts[1..], kind)
  }

  lemma {:induction false} CopiesCounted(q: Query, n: int, kind: string)
    ensures OfKind(Copies(q, n), kind) == if q.kind == kind then AtLeastZero(n) else 0
    decreases n
  {
    if n > 0 {
      CopiesCounted(q, n - 1, kind);
      assert Copies(q, n)[1..] == Copies(q, n - 1);
    }
  }

  lemma {:induction false} RoundCounted(acts: seq<Action>, kind: string)
    ensures OfKind(ShotsOfRound(acts), kind) == PerRound(acts, kind)
  {
    if acts != [] {
      RoundCounted(acts[1..], kind);
      OfKindConcat(ShotsOfAction(acts[0]), ShotsOfRound(acts[1..]), kind);
      if acts[0].Charge? {
        CopiesCounted(acts[0].query, acts[0].numShots, kind);
      }
    }
  }

  /** Rounds times shots. */
  lemma {:induction false} RunCounted(acts: seq<Action>, rounds: int, kind: string)
    ensures OfKind(ShotsOfRun(acts, rounds), kind) == AtLeastZero(rounds) * PerRound(acts, kind)
    decreases rounds
  {
    if rounds > 0 {
      RunCounted(acts, rounds - 1, kind);
      RoundCounted(acts, kind);
      OfKindConcat(ShotsOfRound(acts), ShotsOfRun(acts, rounds - 1), kind);
      assert rounds * PerRound(acts, kind) == (rounds - 1) * PerRound(acts, kind) + PerRound(acts, kind);
    }
  }

  /** A round fires the queries of each action behind those of the actions before it: of a charge as
      many as it has shots, of a pause none. */
  lemma {:induction false} RoundInOrder(a: seq<Action>, x: Action, b: seq<Action>)
    ensures ShotsOfRound(a + ([x] + b)) == ShotsOfRound(a) + (ShotsOfAction(x) + ShotsOfRound(b))
    ensures |ShotsOfAction(x)| == if x.Charge? then AtLeastZero(x.numShots) else 0
    ensures forall q :: q in ShotsOfAction(x) ==> x.Charge? && q == x.query
  {
    var all := a + ([x] + b);
    if x.Charge? {
      CopiesAre(x.query, x.numShots);
    }
    if a == [] {
      assert all[0] == x && all[1..] == b;
    } else {
      assert all[0] == a[0] && all[1..] == a[1..] + ([x] + b);
      RoundInOrder(a[1..], x, b);
      Assoc(ShotsOfAction(a[0]), ShotsOfRound(a[1..]), ShotsOfAction(x) + ShotsOfRound(b));
    }
  }

  lemma {:induction false} CopiesAre(q: Query, n: int)
    ensures |Copies(q, n)| == AtLeastZero(n) && forall p :: p in Copies(q, n) ==> p == q
    decreases n
  {
    if n > 0 {
      CopiesAre(q, n - 1);
    }
  }

  /** A run is one round after the other. */
  lemma {:induction false} RunInRounds(acts: seq<Action>, rounds: int, i: nat)
    ensures |ShotsOfRun(acts, rounds)| == AtLeastZero(rounds) * |ShotsOfRound(acts)|
    ensures i < |ShotsOfRun(acts, rounds)| ==>
              var round := ShotsOfRound(acts); round != [] && ShotsOfRun(acts, rounds)[i] == round[i % |round|]
    decreases rounds
  {
    hide ShotsOfRound;
    var n := |ShotsOfRound(acts)|;
    if rounds > 0 {
      RunInRounds(acts, rounds - 1, if i < n then 0 else i - n);
      Distribute(rounds - 1, 1, n);
      if i < n {
        DivModUnique(i, n, 0, i);
      } else if n > 0 {
        DivMod(i - n, n);
        Distribute((i - n) / n, 1, n);
        DivModUnique(i, n, (i - n) / n + 1, (i - n) % n);
      }
    }
  }

  // ----- Which words it draws

  function RefsOf(q: Query): seq<string> {
    if q.parsed then Refs(Pieces(q.text)) else []
  }

  /** The names of all the words a run needs, in order. */
  function RunRefs(qs: seq<Query>): seq<string> {
    if qs == [] then [] else RefsOf(qs[0]) + RunRefs(qs[1..])
  }

  /** A query with the given words in it, as it goes to the server. */
  function TextWith(q: Query, ws: seq<string>): string
    requires |ws| == |RefsOf(q)|
  {
    if q.parsed then Render(Pieces(q.text), ws, MAX_QUERY, []) else q.text
  }

  function Texts(qs: seq<Query>, ws: seq<string>): seq<string>
    requires |ws| == |RunRefs(qs)|
  {
    if qs == [] then []
    else
      var n := |RefsOf(qs[0])|;
      [TextWith(qs[0], ws[..n])] + Texts(qs[1..], ws[n..])
  }

  /** One shot, with the words it draws. */
  lemma {:induction false} ShotDraws(f: Figures, q: Query, w: World)
    requires f.Figures? && UsablePool(f.pool)
    ensures var d, r := DrawAll(f.pool, RefsOf(q), w.rnd, f.draws), FireOne(f, q, w);
            if d.NoDictionary? then r == Stopped
            else
              && r.Figures? && r.pool == d.pool && r.draws == f.draws + |d.words|
              && r.sent == f.sent + [TextWith(q, d.words)]
              && r.table == RecordShot(f.table, q.kind, Took(w, |f.sent|))
  {
    hide Build, DrawAll, Render, Pieces, Usable;
    if q.parsed {
      BuildIsDrawAndRender(Pieces(q.text), f.pool, w.rnd, f.draws, MAX_QUERY, []);
    } else {
      DrawNothing(f.pool, w.rnd, f.draws);
    }
  }

  lemma DrawNothing(pool: Pool, rnd: nat -> nat, k: nat)
    requires UsablePool(pool)
    ensures DrawAll(pool, [], rnd, k) == Drawn([], pool)
  {
  }

  /** A run as one long sequence of draws: the words that the dictionaries give for all its
      references, one after the other, are the words in the texts that it sends. It stops early
      exactly if one of the references is to no dictionary. */
  lemma {:induction false} RunDraws(f: Figures, qs: seq<Query>, w: World)
    requires f.Figures? && UsablePool(f.pool)
    ensures var d, r := DrawAll(f.pool, RunRefs(qs), w.rnd, f.draws), FireAll(f, qs, w);
            if d.NoDictionary? then r == Stopped
            else
              && r.Figures? && r.pool == d.pool && r.draws == f.draws + |d.words|
              && r.sent == f.sent + Texts(qs, d.words)
    decreases |qs|
  {
    hide DrawAll, FireOne, Usable, RefsOf, TextWith, UsablePool;
    if qs == [] {
      DrawNothing(f.pool, w.rnd, f.draws);
      assert f.sent + [] == f.sent;
    } else {
      var d, r := DrawAll(f.pool, RefsOf(qs[0]), w.rnd, f.draws), FireOne(f, qs[0], w);
      ShotDraws(f, qs[0], w);
      DrawAllConcat(f.pool, RefsOf(qs[0]), RunRefs(qs[1..]), w.rnd, f.draws);
      if d.NoDictionary? {
        FireStopped(qs[1..], w);
      } else {
        FireKeepsUsable(f, qs[0], w);
        RunDraws(r, qs[1..], w);
        var d' := DrawAll(r.pool, RunRefs(qs[1..]), w.rnd, r.draws);
        if d'.Drawn? {
          var n := |d.words|;
          assert (d.words + d'.words)[..n] == d.words && (d.words + d'.words)[n..] == d'.words;
          Assoc(f.sent, [TextWith(qs[0], d.words)], Texts(qs[1..], d'.words));
        }
      }
    }
  }

  /** Draws over a whole run of the barrel. If it is not stopped, the `j`-th substitution of a
      sequential dictionary, over all rounds, actions and shots, is its `j`-th word, round and
      round, and so its words are drawn equally often, up to the round that was begun last. */
  lemma {:induction false} SubstitutionsInTurn(f: Figures, acts: seq<Action>, rounds: int, w: World, name: string)
    returns (ws: seq<string>)
    requires f.Figures? && UsablePool(f.pool) && name in f.pool && f.pool[name].Sequential?
    requires FireAll(f, ShotsOfRun(acts, rounds), w).Figures?
    ensures var qs := ShotsOfRun(acts, rounds);
            && |ws| == |RunRefs(qs)| && FireAll(f, qs, w).sent == f.sent + Texts(qs, ws)
            && var list, drawn := f.pool[name].words, From(RunRefs(qs), ws, name);
               && list != [] && (forall j :: 0 <= j < |drawn| ==> drawn[j] == Turn(list, f.pool[name].cur + j))
               && SharedFairly(list, drawn)
  {
    hide DrawAll, FireAll, Usable, Turn, SharedFairly, RunRefs, From, Texts, ShotsOfRun, UsablePool;
    var qs := ShotsOfRun(acts, rounds);
    RunDraws(f, qs, w);
    DrawnInTurn(f.pool, RunRefs(qs), w.rnd, f.draws, name);
    ws := DrawAll(f.pool, RunRefs(qs), w.rnd, f.draws).words;
    UsableInPool(f.pool, name);
    TurnsAreShared(f.pool[name].words, f.pool[name].cur, From(RunRefs(qs), ws, name));
  }

  /** The same for a dictionary of unique words: its words are those for consecutive ids, and all
      different, as long as they fit their buffer, if and only if its template has a field or there
      is at most one of them. */
  lemma {:induction false} SubstitutionsUnique(f: Figures, acts: seq<Action>, rounds: int, w: World, name: string)
    returns (ws: seq<string>)
    requires f.Figures? && UsablePool(f.pool) && name in f.pool && f.pool[name].Unique?
    requires FireAll(f, ShotsOfRun(acts, rounds), w).Figures?
    ensures DecimalTemplate(f.pool[name].templ)
    ensures var qs := ShotsOfRun(acts, rounds);
            && |ws| == |RunRefs(qs)| && FireAll(f, qs, w).sent == f.sent + Texts(qs, ws)
            && var templ, id, drawn := f.pool[name].templ, f.pool[name].id, From(RunRefs(qs), ws, name);
               && (forall j :: 0 <= j < |drawn| ==> drawn[j] == Printed(templ, id + j))
               && (AllFit(templ, id, |drawn|) ==> (Distinct(drawn) <==> '%' in templ || |drawn| <= 1))
  {
    hide DrawAll, FireAll, Usable, UsablePool, RunRefs, From, Texts, ShotsOfRun, Printed, AllFit, DecimalTemplate,
      Distinct;
    var qs := ShotsOfRun(acts, rounds);
    UniqueTemplate(f.pool, name);
    RunDraws(f, qs, w);
    UniqueInTurn(f.pool, RunRefs(qs), w.rnd, f.draws, name);
    ws := DrawAll(f.pool, RunRefs(qs), w.rnd, f.draws).words;
    var drawn := From(RunRefs(qs), ws, name);
    if AllFit(f.pool[name].templ, f.pool[name].id, |drawn|) {
      UniqueDrawsDistinct(f.pool[name].templ, f.pool[name].id, drawn);
    }
  }

  /** Processes that inherit the same dictionaries and fire the same barrel substitute the same words,
      in the same order, unless the dictionary is a random one. So "unique" words are unique in one
      process only. */
  lemma {:induction false} ProcessesDrawAlike(
      f: Figures, w: World, f': Figures, w': World, acts: seq<Action>, rounds: int, name: string)
    returns (ws: seq<string>, ws': seq<string>)
    requires f.Figures? && f'.Figures? && f.pool == f'.pool && UsablePool(f.pool)
    requires name in f.pool && !f.pool[name].Random?
    requires FireAll(f, ShotsOfRun(acts, rounds), w).Figures?
    ensures FireAll(f', ShotsOfRun(acts, rounds), w').Figures?
    ensures var qs := ShotsOfRun(acts, rounds);
            && |ws| == |ws'| == |RunRefs(qs)|
            && FireAll(f, qs, w).sent == f.sent + Texts(qs, ws)
            && FireAll(f', qs, w').sent == f'.sent + Texts(qs, ws')
            && From(RunRefs(qs), ws, name) == From(RunRefs(qs), ws', name)
  {
    hide DrawAll, FireAll, Usable, UsablePool, RunRefs, From, Texts, ShotsOfRun;
    var qs := ShotsOfRun(acts, rounds);
    RunDraws(f, qs, w);
    RunDraws(f', qs, w');
    ForksDrawAlike(f.pool, RunRefs(qs), w.rnd, f.draws, w'.rnd, f'.draws, name);
    ws := DrawAll(f.pool, RunRefs(qs), w.rnd, f.draws).words;
    ws' := DrawAll(f'.pool, RunRefs(qs), w'.rnd, f'.draws).words;
  }

  // ----- A process of the benchmark is a process of the protocol

  function ProgramOf(qs: seq<Query>): (ops: seq<C.Op>)
    ensures |ops| == |qs| && forall i :: 0 <= i < |qs| ==> ops[i] == C.Shot(qs[i].kind)
  {
    if qs == [] then [] else [C.Shot(qs[0].kind)] + ProgramOf(qs[1..])
  }

  lemma {:induction false} ProgramCounted(qs: seq<Query>, kind: string)
    ensures C.Shots(ProgramOf(qs), kind) == OfKind(qs, kind) && C.Connects(ProgramOf(qs)) == 0
  {
    if qs != [] {
      assert ProgramOf(qs)[1..] == ProgramOf(qs[1..]);
      ProgramCounted(qs[1..], kind);
    }
  }

  /** As many operations of a process as there are times, each taking its time. */
  function RunOps(p: C.Process, times: seq<int>): C.Process
    requires |times| <= |p.todo|
    decreases |times|
  {
    if times == [] then p else RunOps(C.RunOp(p, times[0]), times[1..])
  }

  /** How long `n` queries take, from the `k`-th on. */
  function Times(w: World, k: nat, n: nat): (ts: seq<int>)
    ensures |ts| == n && forall i :: 0 <= i < n ==> ts[i] == Took(w, k + i)
    decreases n
  {
    if n == 0 then [] else [Took(w, k)] + Times(w, k + 1, n - 1)
  }

  /** Firing a run of queries is running as many steps of the protocol's process: they end with the
      same counters. */
  lemma {:induction false} FiringIsRunning(f: Figures, qs: seq<Query>, w: World, connectTime: int, rest: seq<C.Op>)
    requires f.Figures? && UsablePool(f.pool) && FireAll(f, qs, w).Figures?
    ensures RunOps(C.Process(connectTime, f.table, ProgramOf(qs) + rest), Times(w, |f.sent|, |qs|)) ==
            C.Process(connectTime, FireAll(f, qs, w).table, rest)
    decreases |qs|
  {
    hide FireOne, RecordShot, UsablePool, Took;
    var p := C.Process(connectTime, f.table, ProgramOf(qs) + rest);
    if qs == [] {
      assert ProgramOf(qs) + rest == rest;
    } else {
      var r, times := FireOne(f, qs[0], w), Times(w, |f.sent|, |qs|);
      FireKeepsUsable(f, qs[0], w);
      ShotDraws(f, qs[0], w);
      assert r.Figures? by {
        if r.Stopped? {
          FireStopped(qs[1..], w);
        }
      }
      FiringIsRunning(r, qs[1..], w, connectTime, rest);
      assert p.todo[0] == C.Shot(qs[0].kind) && p.todo[1..] == ProgramOf(qs[1..]) + rest;
      assert times[1..] == Times(w, |r.sent|, |qs| - 1);
    }
  }

  ghost predicate InRange(times: seq<int>) {
    forall q :: q in times ==> 0 <= q <= MAX_INT
  }

  function ChildSteps(i: nat, times: seq<int>): (steps: seq<C.Step>)
    ensures |steps| == |times|
  {
    if times == [] then [] else [C.ChildOp(i, times[0])] + ChildSteps(i, times[1..])
  }

  function ParentSteps(times: seq<int>): (steps: seq<C.Step>)
    ensures |steps| == |times|
  {
    if times == [] then [] else [C.ParentOp(times[0])] + ParentSteps(times[1..])
  }

  /** Nothing but one child and its history changes when it runs. */
  lemma {:induction false} ChildRuns(w: C.Setup, s: C.State, i: nat, times: seq<int>)
    requires i < |s.children| && s.children[i].Running? && |times| <= |s.children[i].me.todo| && InRange(times)
    ensures C.Legal(w, s, ChildSteps(i, times))
    ensures var t := C.After(w, s, ChildSteps(i, times));
            t == s.(children := s.children[i := C.Running(RunOps(s.children[i].me, times))], past := t.past)
    decreases |times|
  {
    hide C.RunOp;
    if times != [] {
      assert times[0] in times && forall q :: q in times[1..] ==> q in times;
      var s', steps := C.Apply(w, s, C.ChildOp(i, times[0])), ChildSteps(i, times);
      assert steps[1..] == ChildSteps(i, times[1..]);
      TodoRest(s.children[i].me, times[0]);
      ChildRuns(w, s', i, times[1..]);
    }
  }

  lemma TodoRest(p: C.Process, time: int)
    requires p.todo != []
    ensures C.RunOp(p, time).todo == p.todo[1..]
  {
  }

  /** When the parent runs its figures change; its table does as that of a child. */
  lemma {:induction false} ParentRuns(w: C.Setup, s: C.State, connectTime: int, times: seq<int>)
    requires s.parent.Busy? && |times| <= |s.parent.todo| && InRange(times)
    ensures C.Legal(w, s, ParentSteps(times))
    ensures var t, p := C.After(w, s, ParentSteps(times)),
                        RunOps(C.Process(connectTime, s.tally.table, s.parent.todo), times);
            && t == s.(parent := C.Busy(p.todo), tally := t.tally, own := t.own, ownPast := t.ownPast)
            && t.tally.table == p.table
    decreases |times|
  {
    hide RecordShot;
    if times != [] {
      assert times[0] in times && forall q :: q in times[1..] ==> q in times;
      var s', steps := C.Apply(w, s, C.ParentOp(times[0])), ParentSteps(times);
      var p := C.RunOp(C.Process(connectTime, s.tally.table, s.parent.todo), times[0]);
      assert steps[1..] == ParentSteps(times[1..]);
      ParentRuns(w, s', p.connectTime, times[1..]);
    }
  }

  /** Firing a run of queries is a legal run of the protocol: a child of it fires them in as many
      steps, each enabled where it is taken, and has the counters of the client then; nothing else
      changes but the history. */
  lemma {:induction false} FiringIsLegal(
      setup: C.Setup, s: C.State, i: nat, f: Figures, qs: seq<Query>, w: World, connectTime: int, rest: seq<C.Op>)
    requires f.Figures? && UsablePool(f.pool) && FireAll(f, qs, w).Figures?
    requires i < |s.children| && s.children[i] == C.Running(C.Process(connectTime, f.table, ProgramOf(qs) + rest))
    requires InRange(Times(w, |f.sent|, |qs|))
    ensures var steps := ChildSteps(i, Times(w, |f.sent|, |qs|));
            && C.Legal(setup, s, steps)
            && var t := C.After(setup, s, steps);
               t == s.(children := s.children[i := C.Running(C.Process(connectTime, FireAll(f, qs, w).table, rest))],
                       past := t.past)
  {
    hide FireAll, RunOps, UsablePool, C.Legal, C.After;
    FiringIsRunning(f, qs, w, connectTime, rest);
    ChildRuns(setup, s, i, Times(w, |f.sent|, |qs|));
  }

  /** And so does the parent. */
  lemma {:induction false} ParentFiringIsLegal(
      setup: C.Setup, s: C.State, f: Figures, qs: seq<Query>, w: World, rest: seq<C.Op>)
    requires f.Figures? && UsablePool(f.pool) && FireAll(f, qs, w).Figures?
    requires s.parent == C.Busy(ProgramOf(qs) + rest) && s.tally.table == f.table
    requires InRange(Times(w, |f.sent|, |qs|))
    ensures var steps := ParentSteps(Times(w, |f.sent|, |qs|));
            && C.Legal(setup, s, steps)
            && var t := C.After(setup, s, steps);
               && t == s.(parent := C.Busy(rest), tally := t.tally, own := t.own, ownPast := t.ownPast)
               && t.tally.table == FireAll(f, qs, w).table
  {
    hide FireAll, RunOps, UsablePool, C.Legal, C.After;
    FiringIsRunning(f, qs, w, -1, rest);
    ParentRuns(setup, s, -1, Times(w, |f.sent|, |qs|));
  }

  // ----- One call of the parent is a series of `read`s

  /** `n` steps in a row in which the parent reads. */
  function Reads(n: nat): (steps: seq<C.Step>)
    ensures |steps| == n
  {
    if n == 0 then [] else [C.Read] + Reads(n - 1)
  }

  lemma {:induction false} OneRead(w: C.Setup, s: C.State, n: nat)
    requires C.Reading(s.parent) && s.pipe != []
    ensures C.Enabled(w, s, C.Read) && C.Apply(w, s, C.Read) == C.ReadSome(s)
    ensures C.Legal(w, C.ReadSome(s), Reads(n)) ==>
              C.Legal(w, s, Reads(n + 1)) && C.After(w, s, Reads(n + 1)) == C.After(w, C.ReadSome(s), Reads(n))
  {
    hide C.ReadSome;
    assert Reads(n + 1)[1..] == Reads(n);
  }

  /** Two reads take one record. */
  lemma {:induction false} RecordRead(w: C.Setup, s: C.State, n: nat)
    requires s.parent.AtLength? && s.parent.left > 0
    requires ParseRecord(s.pipe).Parsed? && ParseRecord(s.pipe).record.kind in s.tally.table
    ensures var r, left := ParseRecord(s.pipe).record, s.parent.left - 1;
            var s' := s.(parent := if left == 0 then C.Waiting else C.AtLength(left), pipe := ParseRecord(s.pipe).rest,
                         tally := s.tally.(table := s.tally.table[r.kind := Merge(s.tally.table[r.kind], r.stats)]));
            C.Legal(w, s', Reads(n)) ==>
              C.Legal(w, s, Reads(n + 2)) && C.After(w, s, Reads(n + 2)) == C.After(w, s', Reads(n))
  {
    hide C.Legal, C.After, UpTo, DecodeStats, Merge;
    var len, s1 := ByteValue(s.pipe[0]), C.ReadSome(s);
    assert s1.pipe[..len] == s.pipe[1..len + 1] && s1.pipe[len..len + 12] == s.pipe[len + 1..len + 13];
    assert s1.pipe[len + 12..] == s.pipe[len + 13..];
    OneRead(w, s, n + 1);
    OneRead(w, s1, n);
  }

  lemma {:induction false} RecordsRead(w: C.Setup, s: C.State, n: nat)
    requires n > 0 && s.parent == C.AtLength(n) && CollectRecords(s.tally.table, s.pipe, n).Collected?
    ensures var o := CollectRecords(s.tally.table, s.pipe, n);
            C.Legal(w, s, Reads(2 * n)) && C.After(w, s, Reads(2 * n)) ==
              s.(parent := C.Waiting, pipe := o.rest, tally := s.tally.(table := o.table))
    decreases n
  {
    hide ParseRecord, Merge;
    var p := ParseRecord(s.pipe);
    RecordRead(w, s, 2 * n - 2);
    if n > 1 {
      var r, t := p.record, s.tally.table;
      var s' := s.(parent := C.AtLength(n - 1), pipe := p.rest,
                   tally := s.tally.(table := t[r.kind := Merge(t[r.kind], r.stats)]));
      RecordsRead(w, s', n - 1);
    }
  }

  /** What `ReceiveReport` does in one call the parent of the protocol does in a series of reads, when
      the bytes are there: the same figures and the same rest on the pipe. */
  lemma {:induction false} ReceivingIsReading(w: C.Setup, s: C.State)
    requires s.parent.AtConnect? && |s.pipe| > 4 && CollectReport(s.tally.table, s.pipe[4..]).Collected?
    ensures var n, o := ByteValue(s.pipe[4]), CollectReport(s.tally.table, s.pipe[4..]);
            C.Legal(w, s, Reads(2 + 2 * n)) && C.After(w, s, Reads(2 + 2 * n)) ==
              s.(parent := C.Waiting, pipe := o.rest, taken := s.taken + 1,
                 tally := AbsorbConnect(s.tally, DecodeInt(s.pipe[..4])).(table := o.table))
  {
    hide AbsorbConnect, DecodeInt, CollectRecords, C.Legal, C.After;
    var n, s1 := ByteValue(s.pipe[4]), C.ReadSome(s);
    assert s.pipe[4..][0] == s.pipe[4] && s.pipe[4..][1..] == s1.pipe[1..];
    ConnectKeepsTable(s.tally, DecodeInt(s.pipe[..4]));
    var s2 := C.ReadSome(s1);
    if n == 0 {
      NothingRead(w, s2);
    } else {
      RecordsRead(w, s2, n);
    }
    OneRead(w, s1, 2 * n);
    OneRead(w, s, 1 + 2 * n);
  }

  lemma ConnectKeepsTable(t: Tally, c: int)
    ensures AbsorbConnect(t, c).table == t.table
  {
  }

  lemma NothingRead(w: C.Setup, s: C.State)
    ensures C.Legal(w, s, Reads(0)) && C.After(w, s, Reads(0)) == s
    ensures CollectRecords(s.tally.table, s.pipe, 0) == Collected(s.tally.table, s.pipe)
  {
  }

  /** And when those bytes are the frame of a report, the parent has absorbed that report. */
  lemma {:induction false} FrameIsAbsorbed(t: Tally, kinds: seq<string>, r: Report, rest: string)
    requires Distinct(kinds) && (forall k :: k in kinds ==> k in t.table && k in r.table)
    requires (forall k :: k in r.table ==> k in kinds) && Fits(RecordsOf(kinds, r.table))
    requires forall k :: k in kinds ==> |k| <= 255 && NUL !in k && IntStats(r.table[k])
    ensures CollectReport(t.table, EncodeReport(RecordsOf(kinds, r.table)) + rest) ==
            Collected(MergeTables(t.table, r.table), rest)
  {
    hide DecodeRecords, CollectRecords, EncodeReport, MergeAll;
    var rs := RecordsOf(kinds, r.table);
    FittingCount(rs);
    assert forall i :: 0 <= i < |rs| ==> Sendable(rs[i]);
    ReportRoundTrip(rs, rest);
    MergeRecordsOf(t.table, kinds, r.table);
    var s := EncodeReport(rs) + rest;
    CollectIsDecodeAndMerge(t.table, s[1..], ByteValue(s[0]));
    assert MergeAll(t.table, rs) == MergeTables(t.table, r.table);
  }
}
