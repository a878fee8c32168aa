/** What leaves a process in a run of its barrel, in plain terms: the texts of the queries, the words
    in them, and the times that are recorded. */
module SentTexts {
  import opened CStrings
  import opened Reports
  import opened Dictionaries
  import opened Expander
  import opened Barrels
  import opened Clients
  import opened Runs

  // ----- Texts

  /** One template for which there is room: each character of it is sent, and for each name its word,
      in which quotes and backslashes, and nothing else, are preceded by a backslash. */
  lemma {:induction false} SentWhole(t: string, pool: Pool, rnd: nat -> nat, k: nat, max: nat) returns (text: string)
    requires UsablePool(pool) && DrawAll(pool, Refs(Pieces(t)), rnd, k).Drawn?
    requires Need(Pieces(t), DrawAll(pool, Refs(Pieces(t)), rnd, k).words) + 2 < max
    ensures var ps, d := Pieces(t), DrawAll(pool, Refs(Pieces(t)), rnd, k);
            && Build(ps, pool, rnd, k, max, []) == Expansion(text, d.pool, k + |d.words|)
            && text == Expand(ps, d.words)
            && |text| == |Filled(ps, d.words)| + AllMarks(d.words)
            && ((forall w :: w in d.words ==> '\'' !in w && '"' !in w && '\\' !in w) ==> text == Filled(ps, d.words))
  {
    hide Build, DrawAll, Pieces, Need, Render, Expand, Filled, AllMarks, Usable;
    var ps, d := Pieces(t), DrawAll(pool, Refs(Pieces(t)), rnd, k);
    BuildIsDrawAndRender(ps, pool, rnd, k, max, []);
    RenderIsExpand(ps, d.words, max, []);
    ExpandAdds(ps, d.words);
    if forall w :: w in d.words ==> '\'' !in w && '"' !in w && '\\' !in w {
      ExpandIsFilled(ps, d.words);
    }
    text := Expand(ps, d.words);
    assert [] + text == text;
  }

  /** Of the words of a run those for its `i`-th query. */
  function WordsOf(qs: seq<Query>, ws: seq<string>, i: nat): (vs: seq<string>)
    requires i < |qs| && |ws| == |RunRefs(qs)|
    ensures |vs| == |RefsOf(qs[i])|
  {
    var n := |RefsOf(qs[0])|;
    if i == 0 then ws[..n] else WordsOf(qs[1..], ws[n..], i - 1)
  }

  lemma {:induction false} TextAt(qs: seq<Query>, ws: seq<string>, i: nat)
    requires i < |qs| && |ws| == |RunRefs(qs)|
    ensures |Texts(qs, ws)| == |qs| && Texts(qs, ws)[i] == TextWith(qs[i], WordsOf(qs, ws, i))
  {
    hide RefsOf, TextWith;
    var n := |RefsOf(qs[0])|;
    TextsLength(qs, ws);
    if i > 0 {
      TextAt(qs[1..], ws[n..], i - 1);
    }
  }

  lemma {:induction false} TextsLength(qs: seq<Query>, ws: seq<string>)
    requires |ws| == |RunRefs(qs)|
    ensures |Texts(qs, ws)| == |qs|
  {
    hide RefsOf, TextWith;
    if qs != [] {
      TextsLength(qs[1..], ws[|RefsOf(qs[0])|..]);
    }
  }

  lemma {:induction false} TextInFull(q: Query, vs: seq<string>)
    requires |vs| == |RefsOf(q)|
    ensures !q.parsed ==> TextWith(q, vs) == q.text
    ensures q.parsed && Need(Pieces(q.text), vs) + 2 < 8192 ==>
              var text := TextWith(q, vs);
              && text == Expand(Pieces(q.text), vs)
              && |text| == |Filled(Pieces(q.text), vs)| + AllMarks(vs)
              && ((forall w :: w in vs ==> '\'' !in w && '"' !in w && '\\' !in w) ==>
                    text == Filled(Pieces(q.text), vs))
  {
    hide Pieces, Need, Render, Expand, Filled, AllMarks;
    if q.parsed {
      var ps := Pieces(q.text);
      if Need(ps, vs) + 2 < 8192 {
        RenderIsExpand(ps, vs, 8192, []);
        ExpandAdds(ps, vs);
        if forall w :: w in vs ==> '\'' !in w && '"' !in w && '\\' !in w {
          ExpandIsFilled(ps, vs);
        }
        assert [] + Expand(ps, vs) == Expand(ps, vs);
      }
    }
  }

  /** Every query of a run that is not to be expanded is sent as it is; every other one that has room
      in 8192 characters is sent as its full expansion, with the words that were drawn for it. */
  lemma {:induction false} SentInFull(f: Figures, qs: seq<Query>, w: World) returns (ws: seq<string>)
    requires f.Figures? && UsablePool(f.pool) && FireAll(f, qs, w).Figures?
    ensures DrawAll(f.pool, RunRefs(qs), w.rnd, f.draws).Drawn?
    ensures ws == DrawAll(f.pool, RunRefs(qs), w.rnd, f.draws).words
    ensures var sent := FireAll(f, qs, w).sent;
            && |sent| == |f.sent| + |qs|
            && forall i :: 0 <= i < |qs| ==>
                 var q, vs, text := qs[i], WordsOf(qs, ws, i), sent[|f.sent| + i];
                 && (!q.parsed ==> text == q.text)
                 && (q.parsed && Need(Pieces(q.text), vs) + 2 < 8192 ==>
                       && text == Expand(Pieces(q.text), vs)
                       && |text| == |Filled(Pieces(q.text), vs)| + AllMarks(vs)
                       && ((forall w :: w in vs ==> '\'' !in w && '"' !in w && '\\' !in w) ==>
                             text == Filled(Pieces(q.text), vs)))
  {
    hide DrawAll, FireAll, Usable, UsablePool, RunRefs, Texts, TextWith, WordsOf, Need, Pieces, Expand, Filled,
      AllMarks;
    RunDraws(f, qs, w);
    ws := DrawAll(f.pool, RunRefs(qs), w.rnd, f.draws).words;
    TextsLength(qs, ws);
    forall i | 0 <= i < |qs|
      ensures Texts(qs, ws)[i] == TextWith(qs[i], WordsOf(qs, ws, i))
    {
      TextAt(qs, ws, i);
    }
    var sent := FireAll(f, qs, w).sent;
    forall i | 0 <= i < |qs|
      ensures var q, vs, text := qs[i], WordsOf(qs, ws, i), sent[|f.sent| + i];
              && (!q.parsed ==> text == q.text)
              && (q.parsed && Need(Pieces(q.text), vs) + 2 < 8192 ==>
                    && text == Expand(Pieces(q.text), vs)
                    && |text| == |Filled(Pieces(q.text), vs)| + AllMarks(vs)
                    && ((forall w :: w in vs ==> '\'' !in w && '"' !in w && '\\' !in w) ==>
                          text == Filled(Pieces(q.text), vs)))
    {
      assert sent[|f.sent| + i] == Texts(qs, ws)[i];
      TextInFull(qs[i], WordsOf(qs, ws, i));
    }
  }

  // ----- Words

  /** The `j`-th word of a unique dictionary in a run of the barrel, for a template with a field: its
      text, with the id that is `j` behind the first in the place of the field, padded to the width
      with blanks, or with zeros after a leading 0, and cut off behind 511 characters. */
  lemma {:induction false} UniqueWordsSent(f: Figures, acts: seq<Action>, rounds: int, w: World, name: string,
                                           a: string, width: string, c: char, b: string)
    returns (ws: seq<string>)
    requires f.Figures? && UsablePool(f.pool) && FireAll(f, ShotsOfRun(acts, rounds), w).Figures?
    requires name in f.pool && f.pool[name].Unique? && f.pool[name].templ == a + "%" + width + [c] + b
    requires '%' !in a && '%' !in b && AllDigits(width) && c in "diu"
    ensures var qs := ShotsOfRun(acts, rounds);
            && |ws| == |RunRefs(qs)| && FireAll(f, qs, w).sent == f.sent + Texts(qs, ws)
            && var drawn := From(RunRefs(qs), ws, name);
               forall j :: 0 <= j < |drawn| ==>
                 var number := Decimal(f.pool[name].id + j);
                 var missing := if Value(width) > |number| then Value(width) - |number| else 0;
                 var word := a + Repeat(if width != [] && width[0] == '0' then '0' else ' ', missing) + number + b;
                 drawn[j] == if |word| <= 511 then word else word[..511]
  {
    hide DrawAll, FireAll, Usable, UsablePool, RunRefs, From, Texts, ShotsOfRun, Printed, DecimalTemplate, Next,
      Decimal, Value, Repeat, AllFit, Distinct;
    ws := SubstitutionsUnique(f, acts, rounds, w, name);
    var templ, id, drawn := f.pool[name].templ, f.pool[name].id, From(RunRefs(ShotsOfRun(acts, rounds)), ws, name);
    forall j | 0 <= j < |drawn|
      ensures var number := Decimal(id + j);
              var missing := if Value(width) > |number| then Value(width) - |number| else 0;
              var word := a + Repeat(if width != [] && width[0] == '0' then '0' else ' ', missing) + number + b;
              drawn[j] == if |word| <= 511 then word else word[..511]
    {
      NextUnique(templ, id + j, 0);
      UniqueWordIs(a, width, c, b, id + j, 0);
    }
  }

  /** The words of a random dictionary in a run: each is chosen by the random number of its draw, and
      any word of the list can be. */
  lemma {:induction false} RandomWordsSent(f: Figures, qs: seq<Query>, w: World, name: string)
    returns (ws: seq<string>)
    requires f.Figures? && UsablePool(f.pool) && FireAll(f, qs, w).Figures?
    requires name in f.pool && f.pool[name].Random?
    ensures |ws| == |RunRefs(qs)| && FireAll(f, qs, w).sent == f.sent + Texts(qs, ws)
    ensures var list := f.pool[name].words;
            && list != []
            && forall j :: 0 <= j < |ws| && RunRefs(qs)[j] == name ==> ws[j] == list[w.rnd(f.draws + j) % |list|]
  {
    hide DrawAll, FireAll, Usable, UsablePool, RunRefs, Texts;
    RunDraws(f, qs, w);
    RandomDraws(f.pool, RunRefs(qs), w.rnd, f.draws, name);
    ws := DrawAll(f.pool, RunRefs(qs), w.rnd, f.draws).words;
  }

  // ----- Times

  lemma {:induction false} ShotRecorded(f: Figures, q: Query, w: World)
    requires f.Figures? && UsablePool(f.pool) && FireOne(f, q, w).Figures?
    ensures var k, r := |f.sent|, FireOne(f, q, w);
            && |r.sent| == k + 1 && UsablePool(r.pool)
            && var us := w.end(k).usec - w.start(k).usec;
               var ms := (Micros(w.end(k)) - Micros(w.start(k))) / 1000 + (if us < 0 && us % 1000 != 0 then 1 else 0);
               && r.table.Keys == f.table.Keys
               && forall t :: t in f.table ==>
                    r.table[t] == if t == q.kind then Record1(f.table[t], ms) else f.table[t]
  {
    hide DrawAll, Record1, Micros, Elapsed, FireOne, TextWith;
    ShotDraws(f, q, w);
    FireKeepsUsable(f, q, w);
    ElapsedIs(w.start(|f.sent|), w.end(|f.sent|));
  }

  /** A run that was not stopped, up to its last query. */
  lemma {:induction false} FireLast(f: Figures, qs: seq<Query>, w: World)
    requires f.Figures? && UsablePool(f.pool) && qs != [] && FireAll(f, qs, w).Figures?
    ensures var r := FireAll(f, qs[..|qs| - 1], w);
            r.Figures? && UsablePool(r.pool) && FireOne(r, qs[|qs| - 1], w) == FireAll(f, qs, w)
  {
    hide FireOne, Usable, UsablePool;
    var init, last := qs[..|qs| - 1], qs[|qs| - 1];
    var r := FireAll(f, init, w);
    assert qs == init + [last];
    FireAllConcat(f, init, [last], w);
    if r.Stopped? {
      FireStopped([last], w);
    } else {
      FireKeepsUsable(r, last, w);
      FireNothing(FireOne(r, last, w), w);
      assert [last][1..] == [];
    }
  }

  lemma RecordMore(s: Stats, ms: seq<int>, m: int)
    ensures RecordAll(s, []) == s && RecordAll(s, ms + [m]) == Record1(RecordAll(s, ms), m)
  {
    assert (ms + [m])[..|ms|] == ms;
  }

  /** What a run leaves in the record of a type: that of the times of its queries of this type, in their
      order. The time of each is that between the two readings of the clock, in whole milliseconds
      rounded down, and one more if and only if the microseconds went down by other than whole
      milliseconds. */
  lemma {:induction false} RunRecords(f: Figures, qs: seq<Query>, w: World, kind: string)
    returns (places: seq<nat>, ms: seq<int>)
    requires f.Figures? && UsablePool(f.pool) && FireAll(f, qs, w).Figures? && kind in f.table
    ensures forall i :: 0 <= i < |qs| ==> (qs[i].kind == kind <==> i in places)
    ensures forall j :: 0 <= j < |places| ==> places[j] < |qs| && (j > 0 ==> places[j - 1] < places[j])
    ensures |ms| == |places|
    ensures forall j :: 0 <= j < |ms| ==>
              var start, end := w.start(|f.sent| + places[j]), w.end(|f.sent| + places[j]);
              var us := end.usec - start.usec;
              ms[j] == (Micros(end) - Micros(start)) / 1000 + (if us < 0 && us % 1000 != 0 then 1 else 0)
    ensures var r := FireAll(f, qs, w);
            && |r.sent| == |f.sent| + |qs| && r.table.Keys == f.table.Keys
            && r.table[kind] == RecordAll(f.table[kind], ms)
    decreases |qs|
  {
    hide FireOne, FireAll, Usable, UsablePool, Record1, Micros, RecordAll;
    RecordMore(f.table[kind], [], 0);
    if qs == [] {
      places, ms := [], [];
      FireNothing(f, w);
    } else {
      var n := |qs| - 1;
      var init, last := qs[..n], qs[n];
      FireLast(f, qs, w);
      places, ms := RunRecords(f, init, w, kind);
      assert forall i :: 0 <= i < n ==> init[i] == qs[i];
      var r, k := FireAll(f, init, w), |f.sent| + n;
      ShotRecorded(r, last, w);
      if last.kind == kind {
        var us := w.end(k).usec - w.start(k).usec;
        var m := (Micros(w.end(k)) - Micros(w.start(k))) / 1000 + (if us < 0 && us % 1000 != 0 then 1 else 0);
        RecordMore(f.table[kind], ms, m);
        places, ms := places + [n], ms + [m];
      }
    }
  }
}
