/** The main section of a script: one process interprets it, and forks make it many. */
module Scripts {
  import opened CStrings

  datatype Method =
    | Init
    | Connect
    | SetNumRounds(rounds: int)
    | CreateThreads(threads: int)
    | UnloadQueryBarrel
    | CollectThreads
    | Other(name: string)       // disconnect, sleep, print, query, ...

  datatype Line = Line(client: string, call: Method)

  const MAIN := "main"

  /** A process: the client it works for, how many clients it has forked off, whether it is the
      parent thread of its client, whether it has exited, and the lines it has executed since it
      was forked. */
  datatype Proc = Proc(current: string, pids: nat, parentThread: bool, exited: bool, log: seq<Line>)

  /** A line that a process does not skip. */
  predicate Executes(p: Proc, l: Line) {
    !p.exited && (l.client == p.current || l.call.Init?) && (l.call.Init? ==> p.current == MAIN)
  }

  /** What becomes of a process when it meets a line: itself, and then what it forks. */
  function Step(p: Proc, l: Line): (ps: seq<Proc>)
    ensures |ps| >= 1
  {
    if !Executes(p, l) then [p]
    else
      var done := p.(log := p.log + [l]);
      match l.call
      case Init => [done.(pids := p.pids + 1), p.(current := l.client, log := [])]
      case CreateThreads(n) => [done] + (if p.parentThread then Threads(p, n - 1) else [])
      case CollectThreads => [done.(exited := !p.parentThread)]
      case _ => [done]
  }

  function Threads(p: Proc, n: int): (ps: seq<Proc>)
    ensures |ps| == if n > 0 then n else 0
    ensures forall i :: 0 <= i < |ps| ==> ps[i] == p.(parentThread := false, log := [])
    decreases n
  {
    if n <= 0 then [] else [p.(parentThread := false, log := [])] + Threads(p, n - 1)
  }

  /** One running interpreter, with the fields that `execute` and `create_threads` change. */
  class Interpreter {
    var current: string
    var pids: nat
    var parentThread: bool
    var exited: bool
    var log: seq<Line>

    function View(): Proc
      reads this
    {
      Proc(current, pids, parentThread, exited, log)
    }

    constructor (p: Proc)
      ensures View() == p
    {
      current, pids, parentThread, exited, log := p.current, p.pids, p.parentThread, p.exited, p.log;
    }

    method Execute(l: Line) returns (forked: seq<Interpreter>)
      modifies this
      ensures forall f :: f in forked ==> fresh(f)
      ensures [View()] + Views(forked) == Step(old(View()), l)
    {
      forked := [];
      if exited || (l.client != current && !l.call.Init?) {
        return;
      }
      if l.call.Init? && current != MAIN {
        return;
      }
      match l.call {
        case Init =>
          var child := new Interpreter(Proc(l.client, pids, parentThread, exited, []));
          pids := pids + 1;
          forked := [child];
          assert Views(forked) == [child.View()];
        case CreateThreads(n) =>
          forked := CreateThreadProcesses(n);
        case CollectThreads =>
          if !parentThread {
            exited := true;
          }
        case _ =>
      }
      log := log + [l];
    }

    /** The fork loop of `create_threads`. */
    method CreateThreadProcesses(n: int) returns (children: seq<Interpreter>)
      ensures forall f :: f in children ==> fresh(f)
      ensures Views(children) == if parentThread then Threads(View(), n - 1) else []
    {
      children := [];
      var i := 0;
      while i < n - 1
        invariant i == 0 || 0 < i <= n - 1
        invariant forall f :: f in children ==> fresh(f)
        invariant |children| == if parentThread then i else 0
        invariant forall k :: 0 <= k < |children| ==> children[k].View() == View().(parentThread := false, log := [])
      {
        if parentThread {
          var child := new Interpreter(Proc(current, pids, false, exited, []));
          children := children + [child];
        }
        i := i + 1;
      }
      assert |children| == if parentThread && n > 1 then n - 1 else 0;
    }
  }

  ghost function Views(xs: seq<Interpreter>): (ps: seq<Proc>)
    reads xs
    ensures |ps| == |xs| && forall k :: 0 <= k < |xs| ==> ps[k] == xs[k].View()
  {
    if xs == [] then [] else [xs[0].View()] + Views(xs[1..])
  }

  // ----- Whole scripts

  /** All processes meet the same line. */
  function StepAll(ps: seq<Proc>, l: Line): seq<Proc> {
    if ps == [] then [] else Step(ps[0], l) + StepAll(ps[1..], l)
  }

  /** Each process interprets the rest of the script on its own. */
  function Run(ps: seq<Proc>, script: seq<Line>): seq<Proc>
    decreases |script|
  {
    if script == [] then ps else Run(StepAll(ps, script[0]), script[1..])
  }

  lemma {:induction false} StepAllConcat(a: seq<Proc>, b: seq<Proc>, l: Line)
    ensures StepAll(a + b, l) == StepAll(a, l) + StepAll(b, l)
  {
    if a == [] {
      assert a + b == b;
    } else {
      assert (a + b)[1..] == a[1..] + b;
      StepAllConcat(a[1..], b, l);
    }
  }

  /** Processes do not influence one another. */
  lemma {:induction false} RunConcat(a: seq<Proc>, b: seq<Proc>, script: seq<Line>)
    ensures Run(a + b, script) == Run(a, script) + Run(b, script)
    decreases |script|
  {
    if script != [] {
      StepAllConcat(a, b, script[0]);
      RunConcat(StepAll(a, script[0]), StepAll(b, script[0]), script[1..]);
    }
  }

  lemma {:induction false} RunOne(p: Proc, script: seq<Line>)
    requires script != []
    ensures Run([p], script) == Run(Step(p, script[0]), script[1..])
  {
    assert [p][1..] == [] && StepAll([p], script[0]) == Step(p, script[0]) + [] == Step(p, script[0]);
  }

  lemma {:induction false} RunScriptConcat(ps: seq<Proc>, a: seq<Line>, b: seq<Line>)
    ensures Run(ps, a + b) == Run(Run(ps, a), b)
    decreases |a|
  {
    if a == [] {
      assert a + b == b;
    } else {
      assert (a + b)[1..] == a[1..] + b;
      RunScriptConcat(StepAll(ps, a[0]), a[1..], b);
    }
  }

  predicate Mine(l: Line, client: string) {
    l.client == client && !l.call.Init?
  }

  /** The lines of a client, without the `init`s. */
  function Own(script: seq<Line>, client: string): seq<Line> {
    if script == [] then [] else (if Mine(script[0], client) then [script[0]] else []) + Own(script[1..], client)
  }

  function Inits(script: seq<Line>): seq<Line> {
    if script == [] then [] else (if script[0].call.Init? then [script[0]] else []) + Inits(script[1..])
  }

  /** A process that works for one client. */
  ghost predicate Works(p: Proc, client: string) {
    p.current == client && client != MAIN
  }

  lemma {:induction false} StepWorks(p: Proc, client: string, l: Line)
    requires Works(p, client)
    ensures forall q :: q in Step(p, l) ==> Works(q, client)
    ensures !Mine(l, client) ==> Step(p, l) == [p]
  {
  }

  lemma {:induction false} StepAllWorks(ps: seq<Proc>, client: string, l: Line)
    requires forall p :: p in ps ==> Works(p, client)
    ensures forall q :: q in StepAll(ps, l) ==> Works(q, client)
    ensures !Mine(l, client) ==> StepAll(ps, l) == ps
  {
    if ps != [] {
      StepWorks(ps[0], client, l);
      StepAllWorks(ps[1..], client, l);
      assert ps == [ps[0]] + ps[1..];
    }
  }

  /** Processes of one client behave as if the script held nothing but its own lines. */
  lemma {:induction false} OnlyOwnLines(ps: seq<Proc>, script: seq<Line>, client: string)
    requires forall p :: p in ps ==> Works(p, client)
    ensures Run(ps, script) == Run(ps, Own(script, client))
    decreases |script|
  {
    if script != [] {
      var l, rest := script[0], script[1..];
      StepAllWorks(ps, client, l);
      OnlyOwnLines(StepAll(ps, l), rest, client);
      if Mine(l, client) {
        assert Own(script, client) == [l] + Own(rest, client);
        assert Own(script, client)[1..] == Own(rest, client);
      } else {
        assert Own(script, client) == Own(rest, client);
      }
    }
  }

  function Control(pids: nat, log: seq<Line>): Proc {
    Proc(MAIN, pids, true, false, log)
  }

  /** The process a control process with `pids` clients forks at an `init` line. */
  function Forked(client: string, pids: nat): Proc {
    Proc(client, pids, true, false, [])
  }

  /** Everything that comes of the `init` lines of a script: for each of them one process, which
      then meets the own later lines of its client and nothing else. */
  function Spawned(script: seq<Line>, pids: nat): seq<Proc> {
    if script == [] then []
    else if script[0].call.Init? then
      Spawned(script[1..], pids + 1) + Run([Forked(script[0].client, pids)], Own(script[1..], script[0].client))
    else Spawned(script[1..], pids)
  }

  ghost predicate NoClientMain(script: seq<Line>) {
    forall l :: l in script ==> l.client != MAIN
  }

  /** Script projection. In a script without a client called "main" the control process executes the
      `init` lines and nothing else, and each `init` line gives rise to one process, which executes
      the later lines of its own client. */
  lemma {:induction false} ScriptProjection(script: seq<Line>, pids: nat, log: seq<Line>)
    requires NoClientMain(script)
    ensures Run([Control(pids, log)], script) ==
            [Control(pids + |Inits(script)|, log + Inits(script))] + Spawned(script, pids)
    decreases |script|
  {
    if script == [] {
      assert log + Inits(script) == log;
    } else {
      hide Run, StepAll, Own, Step, Inits, Spawned, Control, Forked, NoClientMain;
      var l, rest := script[0], script[1..];
      FirstLine(script, pids);
      if l.call.Init? {
        var started := Run([Forked(l.client, pids)], Own(rest, l.client));
        ControlForks(script, pids, log);
        ScriptProjection(rest, pids + 1, log + [l]);
        Assoc(log, [l], Inits(rest));
        var control := [Control(pids + |Inits(script)|, log + Inits(script))];
        assert Run([Control(pids + 1, log + [l])], rest) == control + Spawned(rest, pids + 1);
        Assoc(control, Spawned(rest, pids + 1), started);
      } else {
        ControlSkips(script, pids, log);
        ScriptProjection(rest, pids, log);
      }
    }
  }

  lemma FirstLine(script: seq<Line>, pids: nat)
    requires NoClientMain(script) && script != []
    ensures script[0].client != MAIN && NoClientMain(script[1..])
    ensures var l, rest := script[0], script[1..];
            if l.call.Init? then
              Inits(script) == [l] + Inits(rest)
              && Spawned(script, pids) == Spawned(rest, pids + 1) + Run([Forked(l.client, pids)], Own(rest, l.client))
            else Inits(script) == Inits(rest) && Spawned(script, pids) == Spawned(rest, pids)
  {
    assert script[0] in script && forall m :: m in script[1..] ==> m in script;
  }

  lemma {:induction false} ControlSkips(script: seq<Line>, pids: nat, log: seq<Line>)
    requires script != [] && !script[0].call.Init? && script[0].client != MAIN
    ensures Run([Control(pids, log)], script) == Run([Control(pids, log)], script[1..])
  {
    RunOne(Control(pids, log), script);
  }

  lemma {:induction false} ControlForks(script: seq<Line>, pids: nat, log: seq<Line>)
    requires script != [] && script[0].call.Init? && script[0].client != MAIN
    ensures Run([Control(pids, log)], script) ==
            Run([Control(pids + 1, log + [script[0]])], script[1..])
            + Run([Forked(script[0].client, pids)], Own(script[1..], script[0].client))
  {
    hide Run, StepAll, Own;
    var l, rest := script[0], script[1..];
    var control, child := Control(pids + 1, log + [l]), Forked(l.client, pids);
    RunOne(Control(pids, log), script);
    assert Step(Control(pids, log), l) == [control] + [child];
    RunConcat([control], [child], rest);
    OnlyOwnLines([child], rest, l.client);
  }

  // ----- Threads

  ghost predicate OwnLines(ls: seq<Line>, client: string) {
    forall l :: l in ls ==> Mine(l, client)
  }

  ghost predicate SingleThreaded(ls: seq<Line>) {
    forall l :: l in ls ==> !l.call.CreateThreads? && !l.call.CollectThreads?
  }

  lemma {:induction false} RunPlain(p: Proc, ls: seq<Line>)
    requires Works(p, p.current) && !p.exited && OwnLines(ls, p.current) && SingleThreaded(ls)
    ensures Run([p], ls) == [p.(log := p.log + ls)]
    decreases |ls|
  {
    if ls == [] {
      assert p.log + ls == p.log;
    } else {
      assert ls[0] in ls && forall l :: l in ls[1..] ==> l in ls;
      RunOne(p, ls);
      var p' := p.(log := p.log + [ls[0]]);
      assert Step(p, ls[0]) == [p'];
      RunPlain(p', ls[1..]);
      assert ls == [ls[0]] + ls[1..];
      Assoc(p.log, [ls[0]], ls[1..]);
    }
  }

  /** The parent thread of a client executes all its lines, whatever it forks on the way. */
  lemma {:induction false} ParentExecutesAll(p: Proc, ls: seq<Line>)
    requires Works(p, p.current) && !p.exited && p.parentThread && OwnLines(ls, p.current)
    ensures Run([p], ls) != [] && Run([p], ls)[0] == p.(log := p.log + ls)
    decreases |ls|
  {
    if ls == [] {
      assert p.log + ls == p.log;
    } else {
      assert ls[0] in ls && forall l :: l in ls[1..] ==> l in ls;
      RunOne(p, ls);
      var p' := p.(log := p.log + [ls[0]]);
      var ps := Step(p, ls[0]);
      assert ps[0] == p' && ps == [p'] + ps[1..];
      RunConcat([p'], ps[1..], ls[1..]);
      ParentExecutesAll(p', ls[1..]);
      assert ls == [ls[0]] + ls[1..];
      Assoc(p.log, [ls[0]], ls[1..]);
    }
  }

  /** Between `create_threads(n)` and `collect_threads` every line of the client is executed by the
      parent and by `n - 1` children, which exit at `collect_threads`; what comes before and after
      is executed by the parent alone. */
  lemma {:induction false} ThreadsExecuteTheMiddle(
      p: Proc, pre: seq<Line>, n: int, mid: seq<Line>, post: seq<Line>, create: Line, collect: Line)
    requires Works(p, p.current) && !p.exited && p.parentThread
    requires create == Line(p.current, CreateThreads(n)) && collect == Line(p.current, CollectThreads)
    requires OwnLines(pre, p.current) && OwnLines(mid, p.current) && OwnLines(post, p.current)
    requires SingleThreaded(pre) && SingleThreaded(mid) && SingleThreaded(post)
    ensures var child := Proc(p.current, p.pids, false, true, mid + [collect]);
            Run([p], pre + [create] + mid + [collect] + post) ==
            [p.(log := p.log + (pre + [create] + mid + [collect] + post))]
            + seq(if n > 1 then n - 1 else 0, _ => child)
  {
    hide Run, StepAll, Threads, Step;
    var rest := mid + ([collect] + post);
    var child := Proc(p.current, p.pids, false, true, mid + [collect]);
    var p1 := p.(log := p.log + pre);
    var p2, threads := p1.(log := p1.log + [create]), Threads(p1, n - 1);
    assert pre + [create] + mid + [collect] + post == pre + ([create] + rest);
    RunScriptConcat([p], pre, [create] + rest);
    RunPlain(p, pre);
    RunOne(p1, [create] + rest);
    StepCreate(p1, n);
    assert ([create] + rest)[1..] == rest && ([create] + rest)[0] == create;
    RunConcat([p2], threads, rest);
    ParentRest(p2, mid, collect, post);
    assert p2.log + rest == p.log + (pre + [create] + mid + [collect] + post);
    ThreadsRest(threads, p.(parentThread := false, log := []), mid, collect, post);
    assert Run(threads, rest) == seq(if n > 1 then n - 1 else 0, _ => child);
  }

  lemma StepCreate(p: Proc, n: int)
    requires Works(p, p.current) && !p.exited && p.parentThread
    ensures var create := Line(p.current, CreateThreads(n));
            Step(p, create) == [p.(log := p.log + [create])] + Threads(p, n - 1)
  {
  }

  lemma {:induction false} ParentRest(p: Proc, mid: seq<Line>, collect: Line, post: seq<Line>)
    requires Works(p, p.current) && !p.exited && p.parentThread && collect == Line(p.current, CollectThreads)
    requires OwnLines(mid, p.current) && SingleThreaded(mid) && OwnLines(post, p.current) && SingleThreaded(post)
    ensures Run([p], mid + ([collect] + post)) == [p.(log := p.log + (mid + ([collect] + post)))]
  {
    RunScriptConcat([p], mid, [collect] + post);
    RunPlain(p, mid);
    var p1 := p.(log := p.log + mid);
    RunOne(p1, [collect] + post);
    var p2 := p1.(log := p1.log + [collect]);
    assert ([collect] + post)[1..] == post && Step(p1, collect) == [p2];
    hide Run, Step;
    RunPlain(p2, post);
    Assoc(p.log, mid, [collect]);
    Assoc(p.log, mid + [collect], post);
    Assoc(mid, [collect], post);
  }

  lemma {:induction false} ThreadsRest(ps: seq<Proc>, t: Proc, mid: seq<Line>, collect: Line, post: seq<Line>)
    requires Works(t, t.current) && !t.exited && !t.parentThread && t.log == []
    requires collect == Line(t.current, CollectThreads) && forall i :: 0 <= i < |ps| ==> ps[i] == t
    requires OwnLines(mid, t.current) && SingleThreaded(mid)
    ensures var rs := Run(ps, mid + ([collect] + post));
            |rs| == |ps| && forall i :: 0 <= i < |ps| ==> rs[i] == t.(exited := true, log := mid + [collect])
    decreases |ps|
  {
    var rest := mid + ([collect] + post);
    if ps == [] {
      RunNobody(rest);
    } else {
      assert ps == [t] + ps[1..];
      RunConcat([t], ps[1..], rest);
      ThreadsRest(ps[1..], t, mid, collect, post);
      RunScriptConcat([t], mid, [collect] + post);
      RunPlain(t, mid);
      var t1 := t.(log := t.log + mid);
      RunOne(t1, [collect] + post);
      var t2 := t.(exited := true, log := mid + [collect]);
      assert ([collect] + post)[1..] == post && t1.log + [collect] == mid + [collect] && Step(t1, collect) == [t2];
      RunExited(t2, post);
    }
  }

  lemma {:induction false} RunNobody(script: seq<Line>)
    ensures Run([], script) == []
    decreases |script|
  {
    if script != [] {
      RunNobody(script[1..]);
    }
  }

  lemma {:induction false} RunExited(p: Proc, script: seq<Line>)
    requires p.exited
    ensures Run([p], script) == [p]
    decreases |script|
  {
    if script != [] {
      RunOne(p, script);
      RunExited(p, script[1..]);
    }
  }
}
