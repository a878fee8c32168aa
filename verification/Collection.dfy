/** How the parent collects the children's reports: all processes of one client type as a system of
    interleaved steps, between `create_threads` and the end of `thread_sync`. */
module Collection {
  import opened CStrings
  import opened Reports
  import opened Codec

  /** What a process does of its own: it connects, or fires one query of some type. */
  datatype Op = Connect | Shot(kind: string)

  /** What the processes share at the fork. */
  datatype Setup = Setup(
    cap: nat,              // how many bytes the pipe holds
    kinds: seq<string>,    // the query types, in the order the report map is walked
    program: seq<Op>,      // what each process does before it collects
    start: Tally,          // the parent's figures, which each child inherits
    connectTime: int)      // the inherited connect time, -1 if there was none

  /** An operation and the time it took. */
  datatype Event = Event(op: Op, time: int)

  datatype Process = Process(connectTime: int, table: Table, todo: seq<Op>)

  datatype Child =
    | Running(me: Process)
    | Ready(report: Report)                // `select` has found the pipe writable
    | Sending(report: Report, sent: nat)   // has locked the semaphore
    | Released(report: Report)             // has unlocked it, is about to exit
    | Zombie(report: Report)
    | Reaped(report: Report)

  datatype Parent =
    | Busy(todo: seq<Op>)
    | Waiting                              // in `wait4`
    | AtConnect                            // about to read a connect time
    | AtCount                              // ... the number of records
    | AtLength(left: nat)                  // ... the length of a name
    | AtBody(left: nat, len: nat)          // ... a name and its counters
    | Misread                              // has taken a few bytes for a connect time
    | Dead                                 // "incomplete read", or an unknown query type
    | Done

  /** The last five fields are history: no step looks at them. */
  datatype State = State(
    children: seq<Child>, sem: nat, pipe: string, parent: Parent, tally: Tally,
    own: Tally,            // the parent's figures when it began to wait
    log: seq<Report>,      // the reports in the order their senders locked the semaphore
    taken: nat,            // how many of them the parent has begun to read
    past: seq<seq<Event>>, // what each child has done since the fork
    ownPast: seq<Event>)   // what the parent has done

  datatype Step =
    | ChildOp(i: nat, time: int) | Poll(i: nat) | Lock(i: nat) | WriteByte(i: nat) | Unlock(i: nat) | Exit(i: nat)
    | ParentOp(time: int) | Sync | Reap(i: nat) | Read | NoMoreChildren

  ghost function Frame(w: Setup, r: Report): string {
    EncodeFrame(r.connectTime, RecordsOf(w.kinds, r.table))
  }

  function RunOp(p: Process, time: int): Process
    requires p.todo != []
  {
    match p.todo[0]
    case Connect => Process(time, p.table, p.todo[1..])
    case Shot(kind) => Process(p.connectTime, RecordShot(p.table, kind, time), p.todo[1..])
  }

  function RunParentOp(t: Tally, op: Op, time: int): Tally {
    match op
    case Connect => TallyConnect(t, time)
    case Shot(kind) => t.(table := RecordShot(t.table, kind, time))
  }

  predicate HasPipeOpen(c: Child) {
    !c.Zombie? && !c.Reaped?
  }

  /** A `read` or `select` on the pipe returns. */
  ghost predicate Readable(s: State) {
    s.pipe != [] || forall c :: c in s.children ==> !HasPipeOpen(c)
  }

  predicate Reading(p: Parent) {
    p.AtConnect? || p.AtCount? || p.AtLength? || p.AtBody?
  }

  ghost predicate Enabled(w: Setup, s: State, step: Step) {
    match step
    case ChildOp(i, time) =>
      i < |s.children| && s.children[i].Running? && s.children[i].me.todo != [] && 0 <= time <= MAX_INT
    case Poll(i) =>
      i < |s.children| && s.children[i].Running? && s.children[i].me.todo == [] && |s.pipe| < w.cap
    case Lock(i) => i < |s.children| && s.children[i].Ready? && s.sem > 0
    case WriteByte(i) =>
      && i < |s.children| && s.children[i].Sending? && s.children[i].sent < |Frame(w, s.children[i].report)|
      && |s.pipe| < w.cap
    case Unlock(i) =>
      i < |s.children| && s.children[i].Sending? && s.children[i].sent == |Frame(w, s.children[i].report)|
    case Exit(i) => i < |s.children| && s.children[i].Released?
    case ParentOp(time) => s.parent.Busy? && s.parent.todo != [] && 0 <= time <= MAX_INT
    case Sync => s.parent.Busy? && s.parent.todo == []
    case Reap(i) => s.parent.Waiting? && i < |s.children| && s.children[i].Zombie?
    case Read => Reading(s.parent) && Readable(s)
    case NoMoreChildren => s.parent.Waiting? && forall c :: c in s.children ==> c.Reaped?
  }

  /** One `read` of the parent. It gets what there is, up to what it asked for. */
  function ReadSome(s: State): State
    requires Reading(s.parent)
  {
    if s.pipe == [] then s.(parent := if s.parent.AtBody? then Dead else Waiting)
    else
      match s.parent
      case AtConnect =>
        if |s.pipe| < 4 then s.(parent := Misread, pipe := [])
        else s.(parent := AtCount, pipe := s.pipe[4..], taken := s.taken + 1,
                tally := AbsorbConnect(s.tally, DecodeInt(s.pipe[..4])))
      case AtCount =>
        var n := ByteValue(s.pipe[0]);
        s.(parent := if n == 0 then Waiting else AtLength(n), pipe := s.pipe[1..])
      case AtLength(left) =>
        s.(parent := AtBody(left, ByteValue(s.pipe[0])), pipe := s.pipe[1..])
      case AtBody(left, len) =>
        if |s.pipe| < len + 12 then s.(parent := Dead, pipe := [])
        else
          var kind, stats := UpTo(s.pipe[..len], NUL), DecodeStats(s.pipe[len..len + 12]);
          if kind !in s.tally.table then s.(parent := Dead)
          else s.(parent := if left <= 1 then Waiting else AtLength(left - 1), pipe := s.pipe[len + 12..],
                  tally := s.tally.(table := s.tally.table[kind := Merge(s.tally.table[kind], stats)]))
  }

  function SetChild(s: State, i: nat, c: Child): State
    requires i < |s.children|
  {
    s.(children := s.children[i := c])
  }

  /** The history of child `i` grows. */
  function Remember(past: seq<seq<Event>>, i: nat, e: Event): seq<seq<Event>> {
    if i < |past| then past[i := past[i] + [e]] else past
  }

  ghost function Apply(w: Setup, s: State, step: Step): State
    requires Enabled(w, s, step)
  {
    match step
    case ChildOp(i, time) =>
      var me := s.children[i].me;
      SetChild(s, i, Running(RunOp(me, time))).(past := Remember(s.past, i, Event(me.todo[0], time)))
    case Poll(i) =>
      var me := s.children[i].me;
      SetChild(s, i, Ready(Report(me.connectTime, me.table)))
    case Lock(i) =>
      var r := s.children[i].report;
      SetChild(s, i, Sending(r, 0)).(sem := s.sem - 1, log := s.log + [r])
    case WriteByte(i) =>
      var c := s.children[i];
      SetChild(s, i, c.(sent := c.sent + 1)).(pipe := s.pipe + [Frame(w, c.report)[c.sent]])
    case Unlock(i) => SetChild(s, i, Released(s.children[i].report)).(sem := s.sem + 1)
    case Exit(i) => SetChild(s, i, Zombie(s.children[i].report))
    case ParentOp(time) =>
      var t := RunParentOp(s.tally, s.parent.todo[0], time);
      s.(parent := Busy(s.parent.todo[1..]), tally := t, own := t,
         ownPast := s.ownPast + [Event(s.parent.todo[0], time)])
    case Sync => s.(parent := Waiting)
    case Reap(i) => SetChild(s, i, Reaped(s.children[i].report)).(parent := AtConnect)
    case Read => ReadSome(s)
    case NoMoreChildren => s.(parent := Done)
  }

  /** After the fork: the parent and `n` children, each with the program before it. */
  ghost function Initial(w: Setup, n: nat): State {
    State(seq(n, i => Running(Process(w.connectTime, w.start.table, w.program))),
          1, [], Busy(w.program), w.start, w.start, [], 0, seq(n, _ => []), [])
  }

  /** A run: every step is enabled where it is taken. */
  ghost predicate Legal(w: Setup, s: State, steps: seq<Step>)
    decreases |steps|
  {
    steps == [] || (Enabled(w, s, steps[0]) && Legal(w, Apply(w, s, steps[0]), steps[1..]))
  }

  ghost function After(w: Setup, s: State, steps: seq<Step>): State
    requires Legal(w, s, steps)
    decreases |steps|
  {
    if steps == [] then s else After(w, Apply(w, s, steps[0]), steps[1..])
  }

  // ----- Sums over the children

  function Sum(cs: seq<Child>, f: Child -> nat): nat {
    if cs == [] then 0 else Sum(cs[..|cs| - 1], f) + f(cs[|cs| - 1])
  }

  lemma {:induction false} SumUpdate(cs: seq<Child>, f: Child -> nat, i: nat, c: Child)
    requires i < |cs|
    ensures Sum(cs[i := c], f) == Sum(cs, f) - f(cs[i]) + f(c)
  {
    var cs', last := cs[i := c], |cs| - 1;
    if i == last {
      assert cs'[..last] == cs[..last];
    } else {
      SumUpdate(cs[..last], f, i, c);
      assert cs'[..last] == cs[..last][i := c];
    }
  }

  lemma {:induction false} SumMonotone(cs: seq<Child>, f: Child -> nat, g: Child -> nat)
    requires forall c :: c in cs ==> f(c) <= g(c)
    ensures Sum(cs, f) <= Sum(cs, g)
    ensures (exists c :: c in cs && f(c) < g(c)) ==> Sum(cs, f) < Sum(cs, g)
  {
    if cs != [] {
      var init := cs[..|cs| - 1];
      assert cs == init + [cs[|cs| - 1]];
      SumMonotone(init, f, g);
    }
  }

  function Sends(c: Child): nat { if c.Sending? then 1 else 0 }
  function Finished(c: Child): nat { if c.Released? || c.Zombie? || c.Reaped? then 1 else 0 }
  function IsReaped(c: Child): nat { if c.Reaped? then 1 else 0 }

  /** The reports whose senders have locked the semaphore. */
  ghost function Sent(cs: seq<Child>): multiset<Report> {
    if cs == [] then multiset{} else Sent(cs[..|cs| - 1]) + SentBy(cs[|cs| - 1])
  }

  ghost function SentBy(c: Child): multiset<Report> {
    if c.Running? || c.Ready? then multiset{} else multiset{c.report}
  }

  lemma {:induction false} SentUpdate(cs: seq<Child>, i: nat, c: Child)
    requires i < |cs|
    ensures SentBy(cs[i]) <= Sent(cs) && Sent(cs[i := c]) == Sent(cs) - SentBy(cs[i]) + SentBy(c)
  {
    hide SentBy;
    var cs', last := cs[i := c], |cs| - 1;
    if i == last {
      assert cs'[..last] == cs[..last];
    } else {
      SentUpdate(cs[..last], i, c);
      assert cs'[..last] == cs[..last][i := c];
      Exchange(Sent(cs[..last]), SentBy(cs[i]), SentBy(c), SentBy(cs[last]));
    }
  }

  lemma Exchange(all: multiset<Report>, x: multiset<Report>, y: multiset<Report>, more: multiset<Report>)
    requires x <= all
    ensures all - x + y + more == all + more - x + y
  {
  }

  // ----- What every reachable state satisfies

  function Shots(todo: seq<Op>, kind: string): nat {
    if todo == [] then 0 else (if todo[0] == Shot(kind) then 1 else 0) + Shots(todo[1..], kind)
  }

  function Connects(todo: seq<Op>): nat {
    if todo == [] then 0 else (if todo[0] == Connect then 1 else 0) + Connects(todo[1..])
  }

  /** All frames have the same length: it depends on nothing but the names of the query types. */
  function FrameLength(w: Setup): nat {
    5 + SizeOfNames(w.kinds)
  }

  /** What is needed for a collection: a pipe that holds one frame (4 + MAX_REPORT_LEN bytes are
      always enough) and a good program. */
  ghost predicate GoodSetup(w: Setup) {
    GoodProgram(w) && w.cap >= FrameLength(w)
  }

  /** What the parts of the program that run before collection must provide: a report that fits the
      buffer, names that survive the trip, counters that fit a C `int`. */
  ghost predicate GoodProgram(w: Setup) {
    && Distinct(w.kinds) && 1 + SizeOfNames(w.kinds) <= MAX_REPORT_LEN
    && (forall k :: k in w.kinds ==> |k| <= 255 && NUL !in k)
    && (forall k :: k in w.kinds <==> k in w.start.table)
    && (forall k :: k in w.kinds ==>
          && OrderlyTimes(w.start.table[k]) && w.start.table[k].maxTime <= MAX_INT
          && w.start.table[k].numQueries + |w.program| <= MAX_INT)
    && -1 <= w.connectTime <= MAX_INT
  }

  ghost function Inherited(w: Setup, kind: string): int {
    if kind in w.start.table then w.start.table[kind].numQueries else 0
  }

  /** The counters of a process that still has `todo` to do. */
  ghost predicate GoodTable(w: Setup, t: Table, todo: seq<Op>) {
    && (forall k :: k in w.kinds <==> k in t)
    && (forall k :: k in w.kinds ==>
          && OrderlyTimes(t[k]) && t[k].maxTime <= MAX_INT
          && t[k].numQueries + Shots(todo, k) == Inherited(w, k) + Shots(w.program, k))
  }

  ghost predicate GoodConnect(w: Setup, c: int, todo: seq<Op>) {
    && -1 <= c <= MAX_INT
    && ((c == w.connectTime && Connects(todo) == Connects(w.program)) || (0 <= c && Connects(w.program) > 0))
  }

  ghost predicate GoodReport(w: Setup, r: Report) {
    GoodTable(w, r.table, []) && GoodConnect(w, r.connectTime, [])
  }

  ghost predicate GoodChild(w: Setup, c: Child) {
    if c.Running? then GoodTable(w, c.me.table, c.me.todo) && GoodConnect(w, c.me.connectTime, c.me.todo)
    else GoodReport(w, c.report) && (c.Sending? ==> c.sent <= |Frame(w, c.report)|)
  }

  /** What the parent has counted by itself when it still has `todo` to do. */
  ghost predicate GoodOwn(w: Setup, t: Tally, todo: seq<Op>) {
    && GoodTable(w, t.table, todo)
    && t.reported + Connects(todo) == w.start.reported + Connects(w.program)
    && t.minConnect == w.start.minConnect && t.maxConnect == w.start.maxConnect
  }

  ghost function FinishedFrames(s: State): int {
    |s.log| + s.sem - 1
  }

  ghost predicate InvProcesses(w: Setup, s: State) {
    && (forall c :: c in s.children ==> GoodChild(w, c))
    && (forall r :: r in s.log ==> GoodReport(w, r))
    && GoodOwn(w, s.own, if s.parent.Busy? then s.parent.todo else [])
  }

  /** The semaphore is a lock, and the frames are accounted for. */
  ghost predicate InvLock(s: State) {
    && s.sem <= 1 && Sum(s.children, Sends) == 1 - s.sem
    && 0 <= s.taken <= FinishedFrames(s) == Sum(s.children, Finished)
    && Sum(s.children, IsReaped) == s.taken + (if s.parent.AtConnect? then 1 else 0)
    && multiset(s.log) == Sent(s.children)
    && (s.parent.Done? ==> forall c :: c in s.children ==> c.Reaped?)
  }

  ghost function Frames(w: Setup, rs: seq<Report>): string {
    if rs == [] then [] else Frame(w, rs[0]) + Frames(w, rs[1..])
  }

  /** The records of the report being read that are still to be read. */
  ghost function Unread(w: Setup, s: State, left: nat): seq<Record>
    requires 0 < s.taken <= |s.log| && left <= |w.kinds|
  {
    RecordsOf(w.kinds, s.log[s.taken - 1].table)[|w.kinds| - left..]
  }

  ghost predicate GoodParent(w: Setup, s: State)
    requires s.taken <= |s.log|
  {
    match s.parent
    case Busy(_) => s.taken == 0 && s.tally == s.own
    case AtCount =>
      s.taken > 0 && s.tally == AbsorbConnect(AbsorbAll(s.own, s.log[..s.taken - 1]), s.log[s.taken - 1].connectTime)
    case AtLength(left) => s.taken > 0 && GoodPartial(w, s, left)
    case AtBody(left, len) => s.taken > 0 && GoodPartial(w, s, left) && len == |Unread(w, s, left)[0].kind|
    case Misread => false
    case Dead => false
    case _ => s.tally == AbsorbAll(s.own, s.log[..s.taken])
  }

  /** In the middle of a report: what is still unread completes it. */
  ghost predicate GoodPartial(w: Setup, s: State, left: nat)
    requires 0 < s.taken <= |s.log|
  {
    && 0 < left <= |w.kinds|
    && (forall k :: k in w.kinds <==> k in s.tally.table)
    && (forall r :: r in Unread(w, s, left) ==> r.kind in s.tally.table)
    && s.tally.(table := MergeAll(s.tally.table, Unread(w, s, left))) == AbsorbAll(s.own, s.log[..s.taken])
  }

  /** The rest of the frame that the parent is reading. */
  ghost function Tail(w: Setup, s: State): string
    requires s.taken <= |s.log| && GoodParent(w, s)
  {
    match s.parent
    case AtCount => EncodeReport(RecordsOf(w.kinds, s.log[s.taken - 1].table))
    case AtLength(left) => EncodeRecords(Unread(w, s, left))
    case AtBody(left, _) => EncodeRecords(Unread(w, s, left))[1..]
    case _ => []
  }

  /** The unread bytes: the rest of the frame being read, then whole frames in the order of the
      lock, then `partial`. */
  ghost predicate PipeIs(w: Setup, s: State, partial: string)
    requires s.taken <= FinishedFrames(s) <= |s.log| && GoodParent(w, s)
  {
    s.pipe == Tail(w, s) + Frames(w, s.log[s.taken..FinishedFrames(s)]) + partial
  }

  /** Framing: what is partial belongs to the child that holds the lock. */
  ghost predicate InvPipe(w: Setup, s: State)
    requires s.sem <= 1 && s.taken <= FinishedFrames(s) && GoodParent(w, s)
  {
    && (s.sem == 1 ==> PipeIs(w, s, []))
    && (forall c :: c in s.children && c.Sending? ==>
          && s.sem == 0 && c.report == s.log[|s.log| - 1] && c.sent <= |Frame(w, c.report)|
          && PipeIs(w, s, Frame(w, c.report)[..c.sent]))
  }

  ghost predicate Inv(w: Setup, s: State) {
    GoodSetup(w) && InvProcesses(w, s) && InvLock(s) && GoodParent(w, s) && InvPipe(w, s)
  }
}
