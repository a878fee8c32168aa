/** A benchmark client: it expands templates and fires its barrel. */
module Clients {
  import opened CStrings
  import opened Reports
  import opened Codec
  import opened QueryReports
  import opened Dictionaries
  import opened Expander
  import opened Barrels

  const MAX_QUERY := 8192

  ghost function ObjectsOf(m: map<string, Dictionary>): set<Dictionary> {
    set n | n in m :: m[n]
  }

  ghost function PoolOf(m: map<string, Dictionary>): Pool
    reads ObjectsOf(m)
  {
    map n | n in m :: m[n].View()
  }

  /** No two names share a dictionary. */
  ghost predicate NoSharing(m: map<string, Dictionary>) {
    forall a, b :: a in m && b in m && a != b ==> m[a] != m[b]
  }

  method Store(buf: array<char>, at: nat, c: char)
    requires at < buf.Length
    modifies buf
    ensures buf[..at + 1] == old(buf[..at]) + [c]
  {
    buf[at] := c;
  }

  /** `escape_string`, storing from `buf[at]` on. */
  method EscapeString(buf: array<char>, at: nat, word: string) returns (n: nat)
    requires at + 2 * |word| <= buf.Length
    modifies buf
    ensures n == |Escape(word)| && buf[..at + n] == old(buf[..at]) + Escape(word)
  {
    hide EscapeChar, Escape;
    var i := 0;
    assert word[0..] == word;
    n := 0;
    ghost var start, done: string := buf[..at], [];
    while i < |word|
      invariant 0 <= i <= |word| && 0 <= n <= 2 * i
      invariant n == |done| && buf[..at + n] == start + done
      invariant done + Escape(word[i..]) == Escape(word)
    {
      ghost var before := done;
      var k := StoreEscaped(buf, at + n, word[i]);
      n, done := n + k, done + EscapeChar(word[i]);
      EscapeFirst(word[i..]);
      assert word[i..][1..] == word[i + 1..];
      assert done + Escape(word[i + 1..]) == before + Escape(word[i..]);
      assert buf[..at + n] == start + done;
      i := i + 1;
    }
    EscapeNothing();
    assert word[i..] == [];
  }

  lemma EscapeFirst(w: string)
    requires w != []
    ensures Escape(w) == EscapeChar(w[0]) + Escape(w[1..])
  {
  }

  lemma EscapeNothing()
    ensures Escape([]) == []
  {
  }

  method StoreEscaped(buf: array<char>, at: nat, c: char) returns (n: nat)
    requires at + 2 <= buf.Length
    modifies buf
    ensures n == |EscapeChar(c)| && buf[..at + n] == old(buf[..at]) + EscapeChar(c)
  {
    n := 0;
    if c == '\'' || c == '"' || c == '\\' {
      Store(buf, at, '\\');
      n := 1;
    }
    Store(buf, at + n, c);
    n := n + 1;
  }

  /** A literal character goes into the buffer if there is room for it and the terminator. */
  method PutChar(buf: array<char>, offset: nat, c: char) returns (offset': nat)
    requires offset < buf.Length
    modifies buf
    ensures offset' < buf.Length && buf[..offset'] == PutLit(old(buf[..offset]), c, buf.Length)
  {
    offset' := offset;
    if offset < buf.Length - 1 {
      Store(buf, offset, c);
      offset' := offset + 1;
    }
  }

  /** A word goes in if there is room for it with every character escaped, and two more. */
  method PutEscaped(buf: array<char>, offset: nat, word: string) returns (offset': nat)
    requires offset < buf.Length
    modifies buf
    ensures offset' < buf.Length && buf[..offset'] == PutWord(old(buf[..offset]), word, buf.Length)
  {
    offset' := offset;
    if 2 * |word| + offset + 2 < buf.Length {
      var n := EscapeString(buf, offset, word);
      offset' := offset + n;
    }
  }

  // ----- What firing means

  /** How reading a report ends for the parent. */
  datatype Transfer = Nothing | Merged | Killed

  /** The bytes of a connect time of which the pipe had `data`; `junk` is what was in memory for those
      that did not come. */
  function TimeRead(data: string, junk: string): string {
    if |data| >= 4 then data[..4] else data + junk
  }

  function BehindTime(data: string): string {
    if |data| >= 4 then data[4..] else []
  }

  lemma {:induction false} CollectRecordsKeepsKinds(t: Table, s: string, n: nat)
    ensures var o := CollectRecords(t, s, n); !o.Died? ==> o.table.Keys == t.Keys
    decreases n
  {
    if n > 0 && ParseRecord(s).Parsed? {
      var r, rest := ParseRecord(s).record, ParseRecord(s).rest;
      if r.kind in t {
        CollectRecordsKeepsKinds(t[r.kind := Merge(t[r.kind], r.stats)], rest, n - 1);
      }
    }
  }

  lemma CollectKeepsKinds(t: Table, s: string)
    ensures var o := CollectReport(t, s); !o.Died? ==> o.table.Keys == t.Keys
  {
    if s != [] {
      CollectRecordsKeepsKinds(t, s[1..], ByteValue(s[0]));
    }
  }

  /** What a process has to show for the queries it has fired: its counters, its dictionaries, how
      many words it has drawn, and the texts it has sent to the server. */
  datatype Figures = Figures(table: Table, pool: Pool, draws: nat, sent: seq<string>) | Stopped

  /** The outside world: `rnd(k)` is the `k`-th random number; the `k`-th query starts and ends at
      `start(k)` and `end(k)`. */
  datatype World = World(rnd: nat -> nat, start: nat -> Time, end: nat -> Time)

  /** How long the `k`-th query takes. */
  function Took(w: World, k: nat): int {
    Elapsed(w.start(k), w.end(k))
  }

  /** The text that goes to the server for one query, and what drawing its words changes. */
  ghost function TextOf(f: Figures, q: Query, w: World): Expansion
    requires f.Figures? && UsablePool(f.pool)
  {
    if q.parsed then Build(Pieces(q.text), f.pool, w.rnd, f.draws, MAX_QUERY, [])
    else Expansion(q.text, f.pool, f.draws)
  }

  /** One shot. */
  ghost function FireOne(f: Figures, q: Query, w: World): Figures
    requires f.Figures? ==> UsablePool(f.pool)
  {
    if f.Stopped? then Stopped
    else
      match TextOf(f, q, w)
      case Missing => Stopped
      case Expansion(t, p, k) => Figures(RecordShot(f.table, q.kind, Took(w, |f.sent|)), p, k, f.sent + [t])
  }

  lemma FireKeepsUsable(f: Figures, q: Query, w: World)
    requires f.Figures? && UsablePool(f.pool)
    ensures var f' := FireOne(f, q, w); f'.Figures? ==> UsablePool(f'.pool)
  {
    BuildIsDrawAndRender(Pieces(q.text), f.pool, w.rnd, f.draws, MAX_QUERY, []);
  }

  ghost function FireAll(f: Figures, qs: seq<Query>, w: World): (r: Figures)
    requires f.Figures? ==> UsablePool(f.pool)
    ensures r.Figures? ==> UsablePool(r.pool)
    decreases |qs|
  {
    if qs == [] || f.Stopped? then f
    else
      FireKeepsUsable(f, qs[0], w);
      FireAll(FireOne(f, qs[0], w), qs[1..], w)
  }

  lemma {:induction false} FireAllConcat(f: Figures, a: seq<Query>, b: seq<Query>, w: World)
    requires f.Figures? ==> UsablePool(f.pool)
    ensures FireAll(f, a + b, w) == FireAll(FireAll(f, a, w), b, w)
    decreases |a|
  {
    hide FireOne;
    if a == [] {
      assert a + b == b;
    } else if f.Figures? {
      assert (a + b)[1..] == a[1..] + b;
      FireKeepsUsable(f, a[0], w);
      FireAllConcat(FireOne(f, a[0], w), a[1..], b, w);
    }
  }

  /** The queries an action fires, in order: a count below one fires none. */
  function Copies(q: Query, n: int): (qs: seq<Query>)
    decreases n
  {
    if n <= 0 then [] else [q] + Copies(q, n - 1)
  }

  function ShotsOfAction(a: Action): seq<Query> {
    if a.Charge? then Copies(a.query, a.numShots) else []
  }

  function ShotsOfRound(acts: seq<Action>): seq<Query> {
    if acts == [] then [] else ShotsOfAction(acts[0]) + ShotsOfRound(acts[1..])
  }

  /** All the queries of a run of the barrel. */
  function ShotsOfRun(acts: seq<Action>, rounds: int): seq<Query>
    decreases rounds
  {
    if rounds <= 0 then [] else ShotsOfRound(acts) + ShotsOfRun(acts, rounds - 1)
  }

  lemma ShotKeepsKinds(t: Table, kind: string, qTime: int)
    ensures RecordShot(t, kind, qTime).Keys == t.Keys
  {
  }

  lemma FireStopped(qs: seq<Query>, w: World)
    ensures FireAll(Stopped, qs, w) == Stopped
  {
  }

  lemma FireNothing(f: Figures, w: World)
    requires f.Figures? ==> UsablePool(f.pool)
    ensures FireAll(f, [], w) == f
  {
  }

  lemma CopyFirst(f: Figures, q: Query, n: int, w: World)
    requires f.Figures? && UsablePool(f.pool) && n > 0
    ensures FireOne(f, q, w).Figures? ==> UsablePool(FireOne(f, q, w).pool)
    ensures FireAll(f, Copies(q, n), w) == FireAll(FireOne(f, q, w), Copies(q, n - 1), w)
  {
    hide FireOne;
    FireKeepsUsable(f, q, w);
    assert Copies(q, n)[0] == q && Copies(q, n)[1..] == Copies(q, n - 1);
  }

  lemma NoCopies(f: Figures, q: Query, n: int, w: World)
    requires f.Figures? && UsablePool(f.pool) && n <= 0
    ensures FireAll(f, Copies(q, n), w) == f
  {
  }

  lemma NoRound(f: Figures, acts: seq<Action>, w: World)
    requires f.Figures? && UsablePool(f.pool) && acts == []
    ensures FireAll(f, ShotsOfRound(acts), w) == f
  {
  }

  lemma ActionFirst(f: Figures, acts: seq<Action>, w: World)
    requires f.Figures? && UsablePool(f.pool) && acts != []
    ensures FireAll(f, ShotsOfRound(acts), w) ==
            FireAll(FireAll(f, ShotsOfAction(acts[0]), w), ShotsOfRound(acts[1..]), w)
  {
    FireAllConcat(f, ShotsOfAction(acts[0]), ShotsOfRound(acts[1..]), w);
  }

  lemma NoRounds(f: Figures, acts: seq<Action>, rounds: int, w: World)
    requires f.Figures? && UsablePool(f.pool) && rounds <= 0
    ensures FireAll(f, ShotsOfRun(acts, rounds), w) == f
  {
  }

  lemma RoundFirst(f: Figures, acts: seq<Action>, rounds: int, w: World)
    requires (f.Figures? ==> UsablePool(f.pool)) && rounds > 0
    ensures FireAll(f, ShotsOfRun(acts, rounds), w) ==
            FireAll(FireAll(f, ShotsOfRound(acts), w), ShotsOfRun(acts, rounds - 1), w)
  {
    FireAllConcat(f, ShotsOfRound(acts), ShotsOfRun(acts, rounds - 1), w);
  }

  /** The figures of a client that has done nothing yet and whose barrel has the given types. */
  function Fresh(kinds: seq<string>): Tally {
    Tally(Zeros(kinds), 0, -1, 0, 0)
  }

  /** A client as its definition makes it: a new barrel parsed from its text, and the dictionaries. */
  method MakeClient(text: string, queries: map<string, Query>, dictionaries: map<string, Dictionary>)
    returns (c: Client?)
    ensures match Scan(text, [], START, queries)
            case Undefined => c == null
            case Parse(actions, _, _) =>
              && c != null && fresh(c) && c.qb.Valid() && c.qb.actions == actions && c.qb.numRounds == 0
              && c.dictionaries == dictionaries && c.parentThread && c.connectTime == -1
              && c.qb.qr.kinds == KindsOf(actions) && c.Standing() == Fresh(KindsOf(actions))
  {
    hide Scan, KindsOf, Zeros, QueryBarrel.Valid;
    var ok, qb := ParseBarrel(text, queries);
    c := null;
    if ok {
      c := new Client(qb, dictionaries);
    }
  }

  class Client {
    var dictionaries: map<string, Dictionary>
    var draws: nat              // how many words have been drawn: the next one sees `rnd(draws)`
    var sent: seq<string>       // the queries sent to the server
    const qb: QueryBarrel
    var parentThread: bool
    var connectTime: int
    var minConnectTime: int
    var maxConnectTime: int
    var totalConnectTime: int
    var numReportedClients: int

    constructor (qb: QueryBarrel, dictionaries: map<string, Dictionary>)
      ensures this.qb == qb && this.dictionaries == dictionaries && draws == 0 && sent == []
      ensures parentThread && connectTime == -1 && Standing() == Tally(qb.qr.Contents(), 0, -1, 0, 0)
    {
      this.qb, this.dictionaries, draws, sent := qb, dictionaries, 0, [];
      parentThread := true;
      connectTime, minConnectTime := -1, -1;
      totalConnectTime, maxConnectTime, numReportedClients := 0, 0, 0;
    }

    ghost predicate Valid()
      reads this, qb, qb.qr, qb.qr.Objects(), ObjectsOf(dictionaries)
    {
      qb.Valid() && NoSharing(dictionaries) && UsablePool(PoolOf(dictionaries))
    }

    ghost function View(): Figures
      reads this, qb, qb.qr, qb.qr.Objects(), ObjectsOf(dictionaries)
    {
      Figures(qb.qr.Contents(), PoolOf(dictionaries), draws, sent)
    }

    /** What the process would print. */
    ghost function Standing(): Tally
      reads this, qb, qb.qr, qb.qr.Objects()
    {
      Tally(qb.qr.Contents(), totalConnectTime, minConnectTime, maxConnectTime, numReportedClients)
    }

    method Connect(start: Time, end: Time)
      modifies `connectTime, `numReportedClients, `totalConnectTime
      ensures var us := end.usec - start.usec;
              connectTime ==
              (Micros(end) - Micros(start)) / 1000 + (if us < 0 && us % 1000 != 0 then 1 else 0)
      ensures Standing() == if parentThread then TallyConnect(old(Standing()), connectTime) else old(Standing())
    {
      ElapsedIs(start, end);
      var us := end.usec - start.usec;
      connectTime := (end.sec - start.sec) * 1000 + (if us >= 0 then us / 1000 else 0 - (0 - us) / 1000);
      if parentThread {
        numReportedClients := numReportedClients + 1;
        totalConnectTime := totalConnectTime + connectTime;
      }
    }

    /** The child's side of `transfer_report_data`: what it writes while it holds the semaphore. A
        report that does not fit kills the child behind its connect time. */
    method SendReport(pipe: Pipe) returns (sent: bool)
      requires qb.Valid()
      modifies pipe
      ensures sent <==> Fits(qb.qr.Records())
      ensures pipe.data == old(pipe.data)
              + if sent then EncodeFrame(connectTime, qb.qr.Records()) else EncodeInt(connectTime)
    {
      hide EncodeInt, EncodeReport, Fits, QueryReport.Records;
      pipe.Write(EncodeInt(connectTime));
      sent := qb.qr.FdSend(pipe);
      Assoc(old(pipe.data), EncodeInt(connectTime), EncodeReport(qb.qr.Records()));
    }

    /** The parent's side of `transfer_report_data`. Of a connect time that is cut short the code
        uses the bytes it got and, for the others, the `junk` that was in memory. */
    method ReceiveReport(pipe: Pipe) returns (t: Transfer, ghost junk: string)
      requires qb.Valid()
      modifies this`totalConnectTime, this`numReportedClients, this`maxConnectTime, this`minConnectTime,
               qb.qr, qb.qr.Objects(), pipe
      ensures old(pipe.data) == [] ==> t == Nothing && Standing() == old(Standing()) && pipe.data == []
      ensures |old(pipe.data)| < 4 ==> |junk| == 4 - |old(pipe.data)|
      ensures old(pipe.data) != [] ==>
                var data := old(pipe.data);
                var before := AbsorbConnect(old(Standing()), DecodeInt(TimeRead(data, junk)));
                match CollectReport(before.table, BehindTime(data))
                case Collected(table, rest) =>
                  t == Merged && qb.Valid() && Standing() == before.(table := table) && pipe.data == rest
                case EndOfPipe(table) =>
                  t == Merged && qb.Valid() && Standing() == before.(table := table) && pipe.data == []
                case Died => t == Killed
    {
      hide DecodeInt, CollectReport, QueryReport.Valid;
      var buf := new char[4];
      ghost var data := pipe.data;
      var dataLen := pipe.Read(buf, 4);
      junk := buf[dataLen..];
      if dataLen == 0 {
        return Nothing, junk;
      }
      assert buf[..4] == buf[..dataLen] + junk == TimeRead(data, junk);
      CountClient(DecodeInt(buf[..4]));
      ghost var table := qb.qr.Contents();
      var e := qb.qr.UpdateFromFd(pipe);
      CollectKeepsKinds(table, BehindTime(data));
      t := if e == Dead then Killed else Merged;
    }

    method CountClient(tempConnectTime: int)
      modifies `totalConnectTime, `numReportedClients, `maxConnectTime, `minConnectTime
      ensures Standing() == AbsorbConnect(old(Standing()), tempConnectTime)
    {
      totalConnectTime := totalConnectTime + tempConnectTime;
      numReportedClients := numReportedClients + 1;
      if maxConnectTime < tempConnectTime {
        maxConnectTime := tempConnectTime;
      }
      if minConnectTime > tempConnectTime || minConnectTime == -1 {
        minConnectTime := tempConnectTime;
      }
    }

    /** `fire` of a query charge. */
    method Fire(q: Query, numShots: int, w: World) returns (ok: bool)
      requires Valid() && q.kind in qb.qr.Contents()
      modifies `draws, `sent, ObjectsOf(dictionaries), qb.qr, qb.qr.Objects()
      ensures qb.qr.Objects() == old(qb.qr.Objects())
      ensures ok ==> Valid() && View() == FireAll(old(View()), Copies(q, numShots), w)
      ensures !ok ==> FireAll(old(View()), Copies(q, numShots), w) == Stopped
    {
      hide FireOne, FireAll, Copies, Usable, QueryReport.Valid;
      var i := 0;
      assert UsablePool(View().pool);
      ghost var all := FireAll(View(), Copies(q, numShots), w);
      while i < numShots
        invariant Valid() && qb.qr.Objects() == old(qb.qr.Objects()) && q.kind in qb.qr.Contents()
        invariant FireAll(View(), Copies(q, numShots - i), w) == all
      {
        CopyFirst(View(), q, numShots - i, w);
        ok := FireShot(q, w);
        if !ok {
          FireStopped(Copies(q, numShots - i - 1), w);
          return false;
        }
        i := i + 1;
      }
      NoCopies(View(), q, numShots - i, w);
      ok := true;
    }

    /** One round of the loop in `fire`. */
    method FireShot(q: Query, w: World) returns (ok: bool)
      requires Valid() && q.kind in qb.qr.Contents()
      modifies `draws, `sent, ObjectsOf(dictionaries), qb.qr, qb.qr.Objects()
      ensures qb.qr.Objects() == old(qb.qr.Objects())
      ensures ok ==> Valid() && View() == FireOne(old(View()), q, w) && q.kind in qb.qr.Contents()
      ensures !ok ==> FireOne(old(View()), q, w) == Stopped
    {
      hide TextOf, Usable, RecordShot, QueryReport.Valid;
      var text;
      ok, text := Prepare(q, w);
      if ok {
        Account(q, text, w);
      }
    }

    /** The query as it goes to the server. */
    method Prepare(q: Query, w: World) returns (ok: bool, text: string)
      requires Valid()
      modifies `draws, ObjectsOf(dictionaries)
      ensures qb.qr.Contents() == old(qb.qr.Contents()) && sent == old(sent)
      ensures ok ==> Valid() && TextOf(old(View()), q, w) == Expansion(text, PoolOf(dictionaries), draws)
      ensures !ok ==> TextOf(old(View()), q, w) == Missing
    {
      hide Build, Usable, Pieces, QueryReport.Valid;
      ok, text := true, q.text;
      if q.parsed {
        ok, text := SafeParsedQuery(q.text, MAX_QUERY, w.rnd);
      }
    }

    /** The query has been answered: its time goes to the counters of its type. */
    method Account(q: Query, text: string, w: World)
      requires Valid() && q.kind in qb.qr.Contents()
      modifies `sent, qb.qr, qb.qr.Objects()
      ensures Valid() && qb.qr.Objects() == old(qb.qr.Objects())
      ensures qb.qr.Contents() == RecordShot(old(qb.qr.Contents()), q.kind, Took(w, |old(sent)|))
      ensures q.kind in qb.qr.Contents()
      ensures PoolOf(dictionaries) == old(PoolOf(dictionaries)) && sent == old(sent) + [text]
    {
      hide Usable, RecordShot, QueryReport.Valid, ContentsOf, ObjectsIn;
      ShotKeepsKinds(qb.qr.Contents(), q.kind, Took(w, |sent|));
      qb.qr.Update(q.kind, Took(w, |sent|));
      sent := sent + [text];
    }

    /** `unload_query_barrel`: every round fires every action. */
    method UnloadQueryBarrel(w: World) returns (ok: bool)
      requires Valid()
      modifies `draws, `sent, ObjectsOf(dictionaries), qb.qr, qb.qr.Objects()
      ensures ok ==> Valid() && View() == FireAll(old(View()), ShotsOfRun(qb.actions, qb.numRounds), w)
      ensures !ok ==> FireAll(old(View()), ShotsOfRun(qb.actions, qb.numRounds), w) == Stopped
    {
      hide FireAll, ShotsOfRound, ShotsOfRun, Usable, PoolOf, ContentsOf, QueryReport.Valid;
      ghost var acts, all := qb.actions, FireAll(View(), ShotsOfRun(qb.actions, qb.numRounds), w);
      var i := 0;
      while i < qb.numRounds
        invariant Valid() && qb.qr.Objects() == old(qb.qr.Objects()) && qb.actions == acts
        invariant FireAll(View(), ShotsOfRun(acts, qb.numRounds - i), w) == all
      {
        RoundFirst(View(), acts, qb.numRounds - i, w);
        ok := FireRound(w);
        if !ok {
          FireStopped(ShotsOfRun(acts, qb.numRounds - i - 1), w);
          return false;
        }
        i := i + 1;
      }
      NoRounds(View(), acts, qb.numRounds - i, w);
      ok := true;
    }

    method FireRound(w: World) returns (ok: bool)
      requires Valid()
      modifies `draws, `sent, ObjectsOf(dictionaries), qb.qr, qb.qr.Objects()
      ensures qb.qr.Objects() == old(qb.qr.Objects())
      ensures ok ==> Valid() && View() == FireAll(old(View()), ShotsOfRound(qb.actions), w)
      ensures !ok ==> FireAll(old(View()), ShotsOfRound(qb.actions), w) == Stopped
    {
      hide QueryReport.Valid, FireAll, ShotsOfRound, Copies, Usable, PoolOf, ContentsOf;
      ghost var acts, all := qb.actions, FireAll(View(), ShotsOfRound(qb.actions), w);
      var j := 0;
      assert acts[0..] == acts;
      while j < |qb.actions|
        invariant 0 <= j <= |qb.actions| && qb.actions == acts
        invariant Valid() && qb.qr.Objects() == old(qb.qr.Objects())
        invariant FireAll(View(), ShotsOfRound(acts[j..]), w) == all
      {
        ghost var rest := ShotsOfRound(acts[j + 1..]);
        assert acts[j..][1..] == acts[j + 1..];
        ActionFirst(View(), acts[j..], w);
        match qb.actions[j] {
          case Charge(q, n) =>
            ok := Fire(q, n, w);
            if !ok {
              FireStopped(rest, w);
              return false;
            }
          case Sleep(_, _) =>
            FireNothing(View(), w);
        }
        j := j + 1;
      }
      NoRound(View(), acts[j..], w);
      ok := true;
    }

    /** `safe_parsed_query`: the query is expanded into a buffer of `maxQuery` characters, which
        needs room at least for the terminator. `text` is what goes to the server. */
    method SafeParsedQuery(query: string, maxQuery: nat, rnd: nat -> nat) returns (ok: bool, text: string)
      requires maxQuery >= 1 && NoSharing(dictionaries) && UsablePool(PoolOf(dictionaries))
      modifies `draws, ObjectsOf(dictionaries)
      ensures ok ==> UsablePool(PoolOf(dictionaries))
      ensures match Build(Pieces(query), old(PoolOf(dictionaries)), rnd, old(draws), maxQuery, [])
              case Missing => !ok
              case Expansion(t, p, k) => ok && text == t && PoolOf(dictionaries) == p && draws == k
    {
      hide PutLit, PutWord, Next, Usable, UsablePool, PoolOf, Build, Rest;
      var parsedQuery, varBuf := new char[maxQuery], new char[MAX_VAR_BUF];
      var varBufOffset, offset, i := 0, 0, 0;
      var inVar, escaped := false, false;
      ghost var result := Build(Pieces(query), PoolOf(dictionaries), rnd, draws, maxQuery, []);
      RestAtEnds(query, varBuf[..0]);
      while i < |query|
        invariant 0 <= i <= |query| && 0 <= offset < maxQuery && 0 <= varBufOffset < MAX_VAR_BUF
        invariant UsablePool(PoolOf(dictionaries)) && !(inVar && escaped)
        invariant Build(Rest(inVar, escaped, query[i..], varBuf[..varBufOffset]),
                        PoolOf(dictionaries), rnd, draws, maxQuery, parsedQuery[..offset]) == result
      {
        var c := query[i];
        ghost var name := varBuf[..varBufOffset];
        ghost var rest := Rest(inVar, escaped, query[i..], name);
        RestStep(inVar, escaped, query[i..], name);
        assert query[i..][0] == c && query[i..][1..] == query[i + 1..];
        if !inVar {
          if !escaped && c == '\\' {
            escaped := true;
          } else if !escaped && c == '$' {
            inVar, varBufOffset := true, 0;
            assert varBuf[..0] == [];
          } else {
            BuildLit(rest, PoolOf(dictionaries), rnd, draws, maxQuery, parsedQuery[..offset]);
            assert rest[1..] == Rest(false, escaped, query[i + 1..], name);
            offset := PutChar(parsedQuery, offset, c);
          }
        } else if IsNameChar(c) {
          if varBufOffset < MAX_VAR_BUF - 1 {
            Store(varBuf, varBufOffset, c);
            varBufOffset := varBufOffset + 1;
          }
        } else {
          ghost var tail := Rest(false, false, query[i + 1..], name);
          ok, offset := EndOfName(varBuf[..varBufOffset], c, parsedQuery, offset, rnd, tail);
          if !ok {
            return false, [];
          }
          RestOutside(query[i + 1..], name, varBuf[..0]);
          varBufOffset, inVar := 0, false;
        }
        i := i + 1;
      }
      RestAtEnds([], varBuf[..varBufOffset]);
      BuildNothing(PoolOf(dictionaries), rnd, draws, maxQuery, parsedQuery[..offset]);
      assert query[i..] == [];
      parsedQuery[offset] := NUL;
      return true, parsedQuery[..offset];
    }

    /** A name has ended: its word goes in, then the character that ended it. */
    method EndOfName(name: string, c: char, buf: array<char>, offset: nat, rnd: nat -> nat, ghost tail: seq<Piece>)
      returns (ok: bool, offset': nat)
      requires offset < buf.Length && NoSharing(dictionaries) && UsablePool(PoolOf(dictionaries))
      modifies `draws, ObjectsOf(dictionaries), buf
      ensures offset' < buf.Length && (ok ==> UsablePool(PoolOf(dictionaries)))
      ensures Build([Ref(name), Lit(c)] + tail, old(PoolOf(dictionaries)), rnd, old(draws), buf.Length,
                    old(buf[..offset]))
           == if ok then Build(tail, PoolOf(dictionaries), rnd, draws, buf.Length, buf[..offset']) else Missing
    {
      hide PutLit, PutWord, Next, Usable, Build;
      ghost var all, pool, text := [Ref(name), Lit(c)] + tail, PoolOf(dictionaries), buf[..offset];
      assert all[1..] == [Lit(c)] + tail && ([Lit(c)] + tail)[1..] == tail;
      BuildRef(all, pool, rnd, draws, buf.Length, text);
      if name !in dictionaries {
        return false, offset;
      }
      var word := Draw(name, rnd);
      offset' := PutEscaped(buf, offset, word);
      BuildLit(all[1..], PoolOf(dictionaries), rnd, draws, buf.Length, buf[..offset']);
      offset' := PutChar(buf, offset', c);
      ok := true;
    }

    method Draw(name: string, rnd: nat -> nat) returns (word: string)
      requires name in dictionaries && NoSharing(dictionaries) && UsablePool(PoolOf(dictionaries))
      modifies `draws, ObjectsOf(dictionaries)
      ensures var n := Next(old(PoolOf(dictionaries))[name], rnd(old(draws)));
              word == n.0 && PoolOf(dictionaries) == old(PoolOf(dictionaries))[name := n.1]
      ensures draws == old(draws) + 1 && UsablePool(PoolOf(dictionaries))
    {
      hide Next, Usable;
      var d := dictionaries[name];
      assert d.View() == PoolOf(dictionaries)[name];
      ghost var pool := PoolOf(dictionaries);
      NextUsable(pool[name], rnd(draws));
      word := d.NextWord(rnd(draws));
      draws := draws + 1;
    }
  }
}
