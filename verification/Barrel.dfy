/** The query barrel, and the text it is defined by. */
module Barrels {
  import opened CStrings
  import opened Reports
  import opened QueryReports
  import opened KeyOrder

  datatype Query = Query(text: string, name: string, kind: string, parsed: bool)

  datatype Action = Charge(query: Query, numShots: int) | Sleep(sec: int, usec: int)

  class QueryBarrel {
    var actions: seq<Action>
    var numRounds: int
    const qr: QueryReport

    ghost predicate Valid()
      reads this, qr, qr.Objects()
    {
      qr.Valid() && qr.Complete() && forall a :: a in actions && a.Charge? ==> a.query.kind in qr.Contents()
    }

    /** Nothing has been fired: all counters are zero, and there are those of the charges' types. */
    ghost predicate Unfired()
      reads this, qr, qr.Objects()
    {
      numRounds == 0 && qr.kinds == KindsOf(actions) && qr.Contents() == Zeros(KindsOf(actions))
    }

    constructor ()
      ensures Unfired()
      ensures Valid() && actions == [] && numRounds == 0
      ensures fresh(qr) && qr.Objects() == {} && qr.Contents() == map[] && qr.kinds == []
    {
      actions, numRounds := [], 0;
      qr := new QueryReport();
      new;
      NoActions();
    }

    /** A charge is appended, and its type has counters from now on. */
    method AddQueryCharge(q: Query, numShots: int)
      requires Valid()
      modifies this, qr
      ensures Valid() && actions == old(actions) + [Charge(q, numShots)] && numRounds == old(numRounds)
      ensures fresh(qr.Objects() - old(qr.Objects()))
      ensures old(Unfired()) ==> Unfired()
      ensures qr.Contents() == WithKind(old(qr.Contents()), q.kind) && qr.kinds == Insert(old(qr.kinds), q.kind)
    {
      hide KindsOf, Zeros, Insert, Less;
      ActionAdded(actions, Charge(q, numShots));
      actions := actions + [Charge(q, numShots)];
      qr.Ensure(q.kind);
    }

    method AddSleepAction(sec: int, usec: int)
      requires Valid()
      modifies this
      ensures Valid() && actions == old(actions) + [Sleep(sec, usec)] && numRounds == old(numRounds)
      ensures old(Unfired()) ==> Unfired()
    {
      hide KindsOf, Zeros;
      ActionAdded(actions, Sleep(sec, usec));
      actions := actions + [Sleep(sec, usec)];
    }
  }

  function WithKind(t: Table, kind: string): Table {
    if kind in t then t else t[kind := NO_STATS]
  }

  /** The types of the charges, in the order of the map that has their counters. */
  function KindsOf(acts: seq<Action>): seq<string> {
    if acts == [] then []
    else
      var kinds, last := KindsOf(acts[..|acts| - 1]), acts[|acts| - 1];
      if last.Charge? then Insert(kinds, last.query.kind) else kinds
  }

  /** New counters for some types. */
  function Zeros(kinds: seq<string>): Table {
    map k | k in kinds :: NO_STATS
  }

  lemma ActionAdded(acts: seq<Action>, a: Action)
    ensures KindsOf(acts + [a]) == if a.Charge? then Insert(KindsOf(acts), a.query.kind) else KindsOf(acts)
    ensures a.Charge? ==> Zeros(KindsOf(acts + [a])) == WithKind(Zeros(KindsOf(acts)), a.query.kind)
  {
    assert (acts + [a])[..|acts|] == acts;
  }

  lemma NoActions()
    ensures KindsOf([]) == [] && Zeros([]) == map[]
  {
  }

  /** Each type of a charge is there once, and no other. */
  lemma {:induction false} KindsAreCharged(acts: seq<Action>)
    ensures Ascending(KindsOf(acts)) && Distinct(KindsOf(acts))
    ensures forall k :: k in KindsOf(acts) <==> exists a :: a in acts && a.Charge? && a.query.kind == k
  {
    if acts != [] {
      var init, last := acts[..|acts| - 1], acts[|acts| - 1];
      assert acts == init + [last];
      KindsAreCharged(init);
      if last.Charge? {
        InsertAscending(KindsOf(init), last.query.kind);
        assert last in acts;
      }
    }
    AscendingDistinct(KindsOf(acts));
  }

  // ----- Numbers in the text

  /** `atof` on plain decimal notation, as an exact real. */
  function Atof(s: string): real {
    var t := SkipSpaces(s);
    if t != [] && t[0] == '-' then 0.0 - Unsigned(t[1..])
    else if t != [] && t[0] == '+' then Unsigned(t[1..])
    else Unsigned(t)
  }

  function Unsigned(s: string): real {
    var whole := DigitPrefix(s);
    var frac := if |whole| < |s| && s[|whole|] == '.' then DigitPrefix(s[|whole| + 1..]) else [];
    Value(whole) as real + Value(frac) as real / Pow10(|frac|) as real
  }

  /** A token that starts with `-`: a pause of so many seconds. */
  function SleepOf(token: string): Action
    requires token != []
  {
    var sl := Atof(token[1..]);
    var sec := sl.Floor;
    Sleep(sec, ((sl - sec as real) * 1000000.0).Floor)
  }

  // ----- The tokeniser

  datatype Expects = NumShots | QueryName

  /** Where the tokeniser is; or the process has died at a query that is not defined. */
  datatype Parse = Parse(actions: seq<Action>, expects: Expects, numShots: int) | Undefined

  const START := Parse([], NumShots, 0)

  /** A token that a space ends. */
  function SpaceEnds(p: Parse, token: string, pool: map<string, Query>): Parse
    requires token != []
  {
    match p
    case Undefined => Undefined
    case Parse(actions, NumShots, n) =>
      if token[0] == '-' then Parse(actions + [SleepOf(token)], NumShots, n)
      else Parse(actions, QueryName, Atoi(token))
    case Parse(actions, QueryName, n) =>
      if token in pool then Parse(actions + [Charge(pool[token], n)], NumShots, n) else Undefined
  }

  /** A token that the end of the text ends: whatever was expected, it is a pause if it starts with
      `-` and the name of a query otherwise. */
  function TextEnds(p: Parse, token: string, pool: map<string, Query>): Parse
    requires token != []
  {
    match p
    case Undefined => Undefined
    case Parse(actions, expects, n) =>
      if token[0] == '-' then Parse(actions + [SleepOf(token)], expects, n)
      else if token in pool then Parse(actions + [Charge(pool[token], n)], expects, n) else Undefined
  }

  /** The rest of the text, when `token` is what has been read of the current token. */
  function Scan(text: string, token: string, p: Parse, pool: map<string, Query>): Parse
    decreases |text|
  {
    if text == [] then if token == [] then p else TextEnds(p, token, pool)
    else if text[0] == ' ' then Scan(text[1..], [], if token == [] then p else SpaceEnds(p, token, pool), pool)
    else Scan(text[1..], token + [text[0]], p, pool)
  }

  /** A token that a space has ended is acted on. */
  method TakeToken(qb: QueryBarrel, expects: Expects, numShots: int, token: string, pool: map<string, Query>)
    returns (ok: bool, expects': Expects, numShots': int)
    requires token != [] && qb.Valid() && qb.Unfired()
    modifies qb, qb.qr
    ensures qb.Valid() && qb.Unfired() && fresh(qb.qr.Objects() - old(qb.qr.Objects()))
    ensures SpaceEnds(Parse(old(qb.actions), expects, numShots), token, pool) ==
            if ok then Parse(qb.actions, expects', numShots') else Undefined
  {
    hide QueryBarrel.Unfired, QueryBarrel.Valid, Atof;
    ok, expects', numShots' := true, expects, numShots;
    match expects {
      case NumShots =>
        if token[0] == '-' {
          var sl := SleepOf(token);
          qb.AddSleepAction(sl.sec, sl.usec);
        } else {
          numShots', expects' := Atoi(token), QueryName;
        }
      case QueryName =>
        if token !in pool {
          return false, expects, numShots;
        }
        qb.AddQueryCharge(pool[token], numShots);
        expects' := NumShots;
    }
  }

  /** The token that the end of the text has ended. */
  method TakeLastToken(qb: QueryBarrel, numShots: int, token: string, pool: map<string, Query>, ghost expects: Expects)
    returns (ok: bool)
    requires token != [] && qb.Valid() && qb.Unfired()
    modifies qb, qb.qr
    ensures qb.Valid() && qb.Unfired() && fresh(qb.qr.Objects() - old(qb.qr.Objects()))
    ensures TextEnds(Parse(old(qb.actions), expects, numShots), token, pool) ==
            if ok then Parse(qb.actions, expects, numShots) else Undefined
  {
    hide QueryBarrel.Unfired, QueryBarrel.Valid, Atof;
    ok := true;
    if token[0] == '-' {
      var sl := SleepOf(token);
      qb.AddSleepAction(sl.sec, sl.usec);
    } else if token !in pool {
      ok := false;
    } else {
      qb.AddQueryCharge(pool[token], numShots);
    }
  }

  /** `update_client_def` of the barrel line. */
  method ParseBarrel(text: string, pool: map<string, Query>) returns (ok: bool, qb: QueryBarrel)
    ensures fresh(qb) && fresh(qb.qr) && fresh(qb.qr.Objects()) && qb.Valid() && qb.Unfired()
    ensures match Scan(text, [], START, pool)
            case Undefined => !ok
            case Parse(actions, _, _) => ok && qb.actions == actions
  {
    hide SpaceEnds, TextEnds, QueryBarrel.Unfired, QueryBarrel.Valid;
    var buf := new char[|text| + 1];
    var i, j := 0, 0;
    var lastWasSpace, numShots, expects := true, 0, NumShots;
    qb := new QueryBarrel();
    while i < |text|
      invariant 0 <= j <= i <= |text| && (lastWasSpace <==> j == 0)
      invariant fresh(qb) && fresh(qb.qr) && fresh(qb.qr.Objects()) && qb.Valid() && qb.Unfired()
      invariant Scan(text[i..], buf[..j], Parse(qb.actions, expects, numShots), pool) == Scan(text, [], START, pool)
    {
      assert text[i..][1..] == text[i + 1..];
      if text[i] == ' ' {
        if !lastWasSpace {
          lastWasSpace := true;
          var token := buf[..j];
          j := 0;
          ok, expects, numShots := TakeToken(qb, expects, numShots, token, pool);
          if !ok {
            UndefinedStays(text[i + 1..], [], pool);
            return;
          }
        }
        assert buf[..j] == [];
      } else {
        lastWasSpace := false;
        ghost var token := buf[..j];
        buf[j] := text[i];
        j := j + 1;
        assert buf[..j] == token + [text[i]];
      }
      i := i + 1;
    }
    assert text[i..] == [];
    ok := true;
    if !lastWasSpace {
      ok := TakeLastToken(qb, numShots, buf[..j], pool, expects);
    }
  }

  lemma {:induction false} UndefinedStays(text: string, token: string, pool: map<string, Query>)
    ensures Scan(text, token, Undefined, pool) == Undefined
    decreases |text|
  {
    if text != [] {
      UndefinedStays(text[1..], if text[0] == ' ' then [] else token + [text[0]], pool);
    }
  }

  /** Where the two ways a token can end agree: exactly when the token is a pause and a number of
      shots is expected, or is no pause and a query name is. */
  lemma EndsAgree(p: Parse, token: string, pool: map<string, Query>)
    requires token != [] && p.Parse?
    ensures var s, t := SpaceEnds(p, token, pool), TextEnds(p, token, pool);
            (s == t || (s.Parse? && t.Parse? && s.actions == t.actions)) <==> (p.expects.NumShots? <==> token[0] == '-')
  {
    var s, t := SpaceEnds(p, token, pool), TextEnds(p, token, pool);
    if s.Parse? && t.Parse? {
      if p.expects.NumShots? && token[0] != '-' {
        assert |t.actions| == |s.actions| + 1;
      } else if p.expects.QueryName? && token[0] == '-' {
        assert s.actions[|p.actions|].Charge? && t.actions[|p.actions|].Sleep?;
      }
    }
  }

  // ----- Round trip

  predicate IsToken(s: string) {
    s != [] && ' ' !in s
  }

  /** What can be written in a barrel: a number of shots and the name of a query, or a pause of so many
      seconds, with or without a fraction. */
  datatype Written = Shots(count: string, name: string) | Pause(whole: string, point: bool, frac: string)

  /** Names are those of defined queries and cannot be taken for pauses; numbers are digits. */
  predicate Readable(i: Written, pool: map<string, Query>) {
    match i
    case Shots(count, name) =>
      count != [] && AllDigits(count) && name in pool && IsToken(name) && name[0] != '-'
    case Pause(whole, point, frac) =>
      AllDigits(whole) && AllDigits(frac) && (!point ==> frac == [])
  }

  /** The token of a pause. */
  function PauseToken(whole: string, point: bool, frac: string): string {
    "-" + (whole + (if point then "." + frac else []))
  }

  function Tokens(i: Written): (ts: seq<string>)
    ensures ts != []
  {
    match i
    case Shots(count, name) => [count, name]
    case Pause(whole, point, frac) => [PauseToken(whole, point, frac)]
  }

  function AllTokens(items: seq<Written>): seq<string> {
    if items == [] then [] else Tokens(items[0]) + AllTokens(items[1..])
  }

  /** A fraction in units of a millionth: its first six digits, or with zeros behind it. */
  function SixDigits(frac: string): (s: string)
    ensures |s| == 6
  {
    (frac + "000000")[..6]
  }

  lemma SixAreDigits(frac: string)
    requires AllDigits(frac)
    ensures AllDigits(SixDigits(frac))
  {
    assert AllDigits("000000");
  }

  function Meaning(i: Written, pool: map<string, Query>): Action
    requires Readable(i, pool)
  {
    match i
    case Shots(count, name) => Charge(pool[name], Value(count))
    case Pause(whole, _, frac) => SixAreDigits(frac); Sleep(Value(whole), Value(SixDigits(frac)))
  }

  ghost function Meanings(items: seq<Written>, pool: map<string, Query>): (acts: seq<Action>)
    requires forall i :: i in items ==> Readable(i, pool)
    ensures |acts| == |items|
  {
    if items == [] then []
    else
      assert items[0] in items && forall i :: i in items[1..] ==> i in items;
      [Meaning(items[0], pool)] + Meanings(items[1..], pool)
  }

  /** Tokens with `gaps[i]` spaces before the `i`-th of them. */
  function Spread(ts: seq<string>, gaps: seq<nat>): string
    requires |gaps| == |ts|
  {
    if ts == [] then [] else Repeat(' ', gaps[0]) + ts[0] + Spread(ts[1..], gaps[1..])
  }

  ghost predicate Separated(gaps: seq<nat>) {
    forall i :: 1 <= i < |gaps| ==> gaps[i] >= 1
  }

  lemma {:induction false} ScanSpaces(n: nat, rest: string, p: Parse, pool: map<string, Query>)
    ensures Scan(Repeat(' ', n) + rest, [], p, pool) == Scan(rest, [], p, pool)
  {
    var text := Repeat(' ', n) + rest;
    if n == 0 {
      assert text == rest;
    } else {
      assert text[1..] == Repeat(' ', n - 1) + rest;
      ScanSpaces(n - 1, rest, p, pool);
    }
  }

  lemma {:induction false} ScanToken(t: string, rest: string, before: string, p: Parse, pool: map<string, Query>)
    requires ' ' !in t
    ensures Scan(t + rest, before, p, pool) == Scan(rest, before + t, p, pool)
    decreases |t|
  {
    if t == [] {
      assert t + rest == rest && before + t == before;
    } else {
      assert (t + rest)[1..] == t[1..] + rest;
      ScanToken(t[1..], rest, before + [t[0]], p, pool);
      assert before + [t[0]] + t[1..] == before + t;
    }
  }

  lemma SpreadStartsWithSpace(ts: seq<string>, gaps: seq<nat>, tail: string)
    requires |gaps| == |ts| && (ts != [] ==> gaps[0] >= 1) && Spread(ts, gaps) + tail != []
    requires forall i :: 0 <= i < |tail| ==> tail[i] == ' '
    ensures (Spread(ts, gaps) + tail)[0] == ' '
  {
    if ts != [] {
      assert Spread(ts, gaps)[0] == Repeat(' ', gaps[0])[0];
    }
  }

  lemma ScanSpaceAfter(text: string, t: string, p: Parse, pool: map<string, Query>)
    requires text != [] && text[0] == ' ' && t != []
    ensures Scan(text, t, p, pool) == Scan(text, [], SpaceEnds(p, t, pool), pool)
  {
  }

  lemma {:induction false} UnsignedOf(whole: string, point: bool, frac: string)
    requires AllDigits(whole) && AllDigits(frac) && (!point ==> frac == [])
    ensures Unsigned(whole + (if point then "." + frac else [])) ==
            Value(whole) as real + Value(frac) as real / Pow10(|frac|) as real
  {
    hide Value, Pow10, DigitPrefix;
    var tail := if point then "." + frac else [];
    var t := whole + tail;
    DigitsOf(whole, tail);
    DigitsOf(frac, []);
    assert frac + [] == frac && (point ==> t[|whole| + 1..] == frac);
  }

  /** The first six digits are the whole millionths of a fraction. */
  lemma {:induction false} Millionths(frac: string)
    requires AllDigits(frac)
    ensures AllDigits(SixDigits(frac)) && Value(frac) < Pow10(|frac|)
    ensures var r := Value(frac) as real / Pow10(|frac|) as real;
            0.0 <= r < 1.0 && (r * 1000000.0).Floor == Value(SixDigits(frac))
  {
    hide Value, Pow10;
    var zeros := Repeat('0', 6);
    var z := frac + zeros;
    var p, q := z[..6], z[6..];
    assert zeros == "000000" && AllDigits(zeros) && p + q == z && |q| == |frac|;
    assert AllDigits(z) && AllDigits(p) && AllDigits(q);
    ValueBound(frac);
    ValueBound(q);
    ValueConcat(frac, zeros);
    ValueConcat(p, q);
    ZerosAreNothing();
    assert Value(frac) * 1000000 == Value(p) * Pow10(|frac|) + Value(q);
    FloorOf(Value(frac), Pow10(|frac|), Value(p), Value(q));
  }

  lemma ZerosAreNothing()
    ensures Value(Repeat('0', 6)) == 0 && Pow10(6) == 1000000
  {
    ValueIgnoresLeadingZeros(6, []);
    assert Repeat('0', 6) + [] == Repeat('0', 6);
    assert Pow10(6) == 10 * Pow10(5) && Pow10(5) == 10 * Pow10(4) && Pow10(4) == 10 * Pow10(3);
    assert Pow10(3) == 10 * Pow10(2) && Pow10(2) == 10 * Pow10(1) && Pow10(1) == 10 * Pow10(0) == 10;
  }

  lemma FloorOf(v: nat, d: nat, six: nat, rest: nat)
    requires v < d && rest < d && v * 1000000 == six * d + rest
    ensures var r := v as real / d as real; 0.0 <= r < 1.0 && (r * 1000000.0).Floor == six
  {
    var r, e := v as real / d as real, d as real;
    assert r * e == v as real;
    var left := r * 1000000.0 - six as real;
    assert (v * 1000000) as real == v as real * 1000000.0 && (six * d) as real == six as real * e;
    assert left * e == v as real * 1000000.0 - six as real * e == rest as real;
    BetweenZeroAndOne(left, e, rest as real);
    BetweenZeroAndOne(r, e, v as real);
  }

  lemma BetweenZeroAndOne(x: real, e: real, y: real)
    requires 0.0 <= y < e && x * e == y
    ensures 0.0 <= x < 1.0
  {
  }

  /** A pause is read as so many seconds and, from the first six digits of its fraction, so many
      microseconds; without a fraction it has none. */
  lemma {:induction false} PauseIsRead(whole: string, point: bool, frac: string)
    requires AllDigits(whole) && AllDigits(frac) && (!point ==> frac == [])
    ensures AllDigits(SixDigits(frac)) && (frac == [] ==> Value(SixDigits(frac)) == 0)
    ensures SleepOf(PauseToken(whole, point, frac)) == Sleep(Value(whole), Value(SixDigits(frac)))
    ensures var token := PauseToken(whole, point, frac); IsToken(token) && token[0] == '-'
  {
    hide Value, Pow10, Unsigned;
    var t := whole + (if point then "." + frac else []);
    UnsignedOf(whole, point, frac);
    Millionths(frac);
    assert PauseToken(whole, point, frac)[1..] == t && (t != [] ==> IsDigit(t[0]) || t[0] == '.');
    assert ' ' !in t;
    var r := Value(frac) as real / Pow10(|frac|) as real;
    assert Atof(t) == Value(whole) as real + r;
    FloorOfSum(Value(whole), r);
    NoFraction();
  }

  lemma FloorOfSum(n: nat, r: real)
    requires 0.0 <= r < 1.0
    ensures (n as real + r).Floor == n && n as real + r - n as real == r
  {
  }

  lemma NoFraction()
    ensures AllDigits(SixDigits([])) && Value(SixDigits([])) == 0
  {
    ZerosAreNothing();
    assert SixDigits([]) == Repeat('0', 6);
  }

  /** A token of the expected sort is taken the same way at a space and at the end of the text. */
  lemma {:induction false} ScanExpected(n: nat, t: string, more: string, p: Parse, pool: map<string, Query>)
    requires IsToken(t) && p.Parse? && (p.expects.NumShots? <==> t[0] == '-')
    requires more != [] ==> more[0] == ' '
    ensures var r := Scan(Repeat(' ', n) + (t + more), [], p, pool);
            && (more != [] ==> r == Scan(more, [], SpaceEnds(p, t, pool), pool))
            && (more == [] ==> r == TextEnds(p, t, pool))
  {
    hide SpaceEnds, TextEnds;
    ScanSpaces(n, t + more, p, pool);
    ScanToken(t, more, [], p, pool);
    assert [] + t == t;
  }

  lemma {:induction false} CountToken(count: string)
    requires count != [] && AllDigits(count)
    ensures IsToken(count) && count[0] != '-' && Atoi(count) == Value(count)
  {
    AtoiReads([], count, []);
    assert [] + (count + []) == count;
    assert forall i :: 0 <= i < |count| ==> IsDigit(count[i]);
  }

  /** Round trip. Whatever the spaces between and around them, the tokens of charges and pauses are
      parsed into these. */
  lemma {:induction false} WrittenRoundTrip(
      items: seq<Written>, pool: map<string, Query>, gaps: seq<nat>, trailing: nat, p: Parse)
    requires forall i :: i in items ==> Readable(i, pool)
    requires |gaps| == |AllTokens(items)| && Separated(gaps)
    requires p.Parse? && p.expects.NumShots?
    ensures var r := Scan(Spread(AllTokens(items), gaps) + Repeat(' ', trailing), [], p, pool);
            r.Parse? && r.actions == p.actions + Meanings(items, pool)
    decreases |items|
  {
    hide SleepOf, Atoi, Scan, Spread, Tokens, Meaning;
    var ts, tail := AllTokens(items), Repeat(' ', trailing);
    if items == [] {
      SpreadNothing(p, pool);
      assert Spread(ts, gaps) + tail == tail + [];
      ScanSpaces(trailing, [], p, pool);
      assert p.actions + Meanings(items, pool) == p.actions;
    } else {
      var i, rest := items[0], items[1..];
      assert i in items && forall j :: j in rest ==> j in items;
      var k := |Tokens(i)|;
      var rts, rgaps := AllTokens(rest), gaps[k..];
      assert ts == Tokens(i) + rts && ts[k..] == rts;
      var more := Spread(rts, rgaps) + tail;
      if more != [] {
        SpreadStartsWithSpace(rts, rgaps, tail);
      }
      ScanWritten(i, pool, gaps[..k], more, p);
      SpreadTwo(Tokens(i), rts, gaps, tail);
      var a := Meaning(i, pool);
      var p' := Parse(p.actions + [a], NumShots, AfterAction(a, p));
      Assoc(p.actions, [a], Meanings(rest, pool));
      WrittenRoundTrip(rest, pool, rgaps, trailing, p');
      if more == [] && rest != [] {
        SpreadSomething(rts, rgaps);
        assert false;
      }
    }
  }

  // ----- Printing actions

  /** Actions that can be written down. */
  ghost predicate Printable(a: Action, pool: map<string, Query>) {
    match a
    case Charge(q, n) => 0 <= n && q.name in pool && pool[q.name] == q && IsToken(q.name) && q.name[0] != '-'
    case Sleep(sec, usec) => 0 <= sec && 0 <= usec < 1000000
  }

  /** Six digits for a number of microseconds. */
  function Micro(usec: nat): string {
    var s := Decimal(usec);
    Repeat('0', if |s| < 6 then 6 - |s| else 0) + s
  }

  ghost function Print(a: Action, pool: map<string, Query>): Written
    requires Printable(a, pool)
  {
    match a
    case Charge(q, n) => Shots(Decimal(n), q.name)
    case Sleep(sec, usec) => Pause(Decimal(sec), true, Micro(usec))
  }

  ghost function PrintAll(acts: seq<Action>, pool: map<string, Query>): (items: seq<Written>)
    requires forall a :: a in acts ==> Printable(a, pool)
    ensures |items| == |acts|
  {
    if acts == [] then []
    else
      assert acts[0] in acts && forall a :: a in acts[1..] ==> a in acts;
      [Print(acts[0], pool)] + PrintAll(acts[1..], pool)
  }

  lemma {:induction false} DigitCount(n: nat, k: nat)
    requires n < Pow10(k) && k > 0
    ensures |Decimal(n)| <= k
  {
    if n >= 10 {
      assert n / 10 < Pow10(k - 1);
      DigitCount(n / 10, k - 1);
    }
  }

  lemma {:induction false} MicroIsRead(usec: nat)
    requires usec < 1000000
    ensures AllDigits(Micro(usec)) && SixDigits(Micro(usec)) == Micro(usec) && Value(Micro(usec)) == usec
  {
    hide Decimal, Value, Pow10;
    ZerosAreNothing();
    DigitCount(usec, 6);
    var d := Decimal(usec);
    ValueIgnoresLeadingZeros(if |d| < 6 then 6 - |d| else 0, d);
    assert (Micro(usec) + "000000")[..6] == Micro(usec);
  }

  /** A printed action is read back. */
  lemma {:induction false} PrintIsRead(a: Action, pool: map<string, Query>)
    requires Printable(a, pool)
    ensures Readable(Print(a, pool), pool) && Meaning(Print(a, pool), pool) == a
  {
    hide Decimal, Value, Micro, SixDigits;
    if a.Sleep? {
      MicroIsRead(a.usec);
    }
  }

  lemma {:induction false} PrintAllIsRead(acts: seq<Action>, pool: map<string, Query>)
    requires forall a :: a in acts ==> Printable(a, pool)
    ensures forall i :: i in PrintAll(acts, pool) ==> Readable(i, pool)
    ensures Meanings(PrintAll(acts, pool), pool) == acts
  {
    hide Print, Meaning, Readable, Printable;
    if acts != [] {
      assert acts[0] in acts && forall a :: a in acts[1..] ==> a in acts;
      PrintIsRead(acts[0], pool);
      PrintAllIsRead(acts[1..], pool);
      var items := PrintAll(acts, pool);
      assert items == [Print(acts[0], pool)] + PrintAll(acts[1..], pool) && items[1..] == PrintAll(acts[1..], pool);
      assert acts == [acts[0]] + acts[1..];
    }
  }

  /** A printed pause is read back as the same pause. */
  lemma {:induction false} SleepRoundTrip(sec: nat, usec: nat)
    requires usec < 1000000
    ensures var token := PauseToken(Decimal(sec), true, Micro(usec));
            IsToken(token) && SleepOf(token) == Sleep(sec, usec)
  {
    hide Decimal, Value, Micro, SixDigits, SleepOf;
    MicroIsRead(usec);
    PauseIsRead(Decimal(sec), true, Micro(usec));
  }

  /** Any actions that can be written down are parsed back from what is written, with any spaces. */
  lemma {:induction false} BarrelRoundTrip(
      acts: seq<Action>, pool: map<string, Query>, gaps: seq<nat>, trailing: nat, p: Parse)
    requires forall a :: a in acts ==> Printable(a, pool)
    requires |gaps| == |AllTokens(PrintAll(acts, pool))| && Separated(gaps)
    requires p.Parse? && p.expects.NumShots?
    ensures var r := Scan(Spread(AllTokens(PrintAll(acts, pool)), gaps) + Repeat(' ', trailing), [], p, pool);
            r.Parse? && r.actions == p.actions + acts
  {
    hide Scan, Spread, AllTokens, PrintAll, Meanings;
    PrintAllIsRead(acts, pool);
    WrittenRoundTrip(PrintAll(acts, pool), pool, gaps, trailing, p);
  }

  lemma SpreadSomething(ts: seq<string>, gaps: seq<nat>)
    requires ts != [] && |gaps| == |ts| && gaps[0] >= 1
    ensures Spread(ts, gaps) != []
  {
  }

  lemma SpreadNothing(p: Parse, pool: map<string, Query>)
    ensures Spread([], []) == [] && Scan([], [], p, pool) == p
  {
  }

  function AfterAction(a: Action, p: Parse): int
    requires p.Parse?
  {
    if a.Charge? then a.numShots else p.numShots
  }

  lemma {:induction false} SpreadTwo(a: seq<string>, b: seq<string>, gaps: seq<nat>, tail: string)
    requires |gaps| == |a + b|
    ensures Spread(a + b, gaps) + tail == Spread(a, gaps[..|a|]) + (Spread(b, gaps[|a|..]) + tail)
    decreases |a|
  {
    if a == [] {
      assert a + b == b && gaps[0..] == gaps;
    } else {
      assert (a + b)[1..] == a[1..] + b;
      assert gaps[1..][..|a| - 1] == gaps[..|a|][1..] && gaps[1..][|a| - 1..] == gaps[|a|..];
      SpreadTwo(a[1..], b, gaps[1..], tail);
      var head := Repeat(' ', gaps[0]) + a[0];
      assert Spread(a + b, gaps) == head + Spread(a[1..] + b, gaps[1..]);
      assert Spread(a, gaps[..|a|]) == head + Spread(a[1..], gaps[..|a|][1..]);
      hide Spread;
      Assoc(head, Spread(a[1..] + b, gaps[1..]), tail);
      Assoc(head, Spread(a[1..], gaps[..|a|][1..]), Spread(b, gaps[|a|..]) + tail);
    }
  }

  /** A charge or a pause, with a space or nothing behind it. */
  lemma {:induction false} ScanWritten(i: Written, pool: map<string, Query>, gaps: seq<nat>, more: string, p: Parse)
    requires Readable(i, pool) && |gaps| == |Tokens(i)| && Separated(gaps)
    requires p.Parse? && p.expects.NumShots? && (more != [] ==> more[0] == ' ')
    ensures var r, a := Scan(Spread(Tokens(i), gaps) + more, [], p, pool), Meaning(i, pool);
            var p' := Parse(p.actions + [a], NumShots, AfterAction(a, p));
            && (more != [] ==> r == Scan(more, [], p', pool))
            && (more == [] ==> r.Parse? && r.actions == p'.actions)
  {
    hide Scan, SleepOf, Atoi, Value, PauseToken, SixDigits;
    match i {
      case Pause(whole, point, frac) =>
        var t := PauseToken(whole, point, frac);
        PauseIsRead(whole, point, frac);
        assert Spread([t], gaps) + more == Repeat(' ', gaps[0]) + (t + more);
        ScanExpected(gaps[0], t, more, p, pool);
      case Shots(count, name) =>
        CountToken(count);
        ScanShots(count, name, gaps, more, p, pool);
    }
  }

  lemma {:induction false} ScanShots(
      count: string, name: string, gaps: seq<nat>, more: string, p: Parse, pool: map<string, Query>)
    requires |gaps| == 2 && gaps[1] >= 1 && (more != [] ==> more[0] == ' ')
    requires IsToken(count) && count[0] != '-' && IsToken(name) && name[0] != '-' && name in pool
    requires p.Parse? && p.expects.NumShots?
    ensures var r := Scan(Spread([count, name], gaps) + more, [], p, pool);
            var p' := Parse(p.actions + [Charge(pool[name], Atoi(count))], NumShots, Atoi(count));
            && (more != [] ==> r == Scan(more, [], p', pool))
            && (more == [] ==> r.Parse? && r.actions == p'.actions)
  {
    hide Scan, Atoi;
    var tail := Repeat(' ', gaps[1]) + (name + more);
    assert Spread([count, name], gaps) + more == Repeat(' ', gaps[0]) + (count + tail) by {
      assert [count, name][1..] == [name] && gaps[1..] == [gaps[1]];
      assert Spread([name], [gaps[1]]) == Repeat(' ', gaps[1]) + name;
    }
    ScanSpaces(gaps[0], count + tail, p, pool);
    ScanToken(count, tail, [], p, pool);
    assert [] + count == count && tail[0] == ' ';
    ScanExpected(gaps[1], name, more, SpaceEnds(p, count, pool), pool);
    ScanSpaceAfter(tail, count, p, pool);
  }
}
