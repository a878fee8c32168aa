/** Query templates: how `$name` references become dictionary words. */
module Expander {
  import opened CStrings
  import opened Dictionaries

  const MAX_VAR_BUF := 512

  predicate IsNameChar(c: char) {
    IsDigit(c) || 'a' <= c <= 'z' || 'A' <= c <= 'Z' || c == '_'
  }

  // ----- What a template means

  datatype Piece = Lit(c: char) | Ref(name: string)

  /** A template outside a name. A backslash disappears and everything behind it is literal. */
  function Pieces(t: string): seq<Piece>
    decreases |t|, 0
  {
    if t == [] then []
    else if t[0] == '\\' then Verbatim(t[1..])
    else if t[0] == '$' then AfterDollar(t[1..], [])
    else [Lit(t[0])] + Pieces(t[1..])
  }

  /** Inside a name of which `name` has been read. A name that reaches the end of the template is
      dropped; otherwise the character that ends it is literal, whatever it is. */
  function AfterDollar(t: string, name: string): seq<Piece>
    decreases |t|, 1
  {
    if t == [] then []
    else if IsNameChar(t[0]) then AfterDollar(t[1..], if |name| < MAX_VAR_BUF - 1 then name + [t[0]] else name)
    else [Ref(name), Lit(t[0])] + Pieces(t[1..])
  }

  /** What a name consists of: `$`, digits, letters and underscores up to another character, which is
      literal. Only 511 characters of it count. */
  lemma {:induction false} NameIsRead(name: string, c: char, rest: string)
    requires forall x :: x in name ==> '0' <= x <= '9' || 'a' <= x <= 'z' || 'A' <= x <= 'Z' || x == '_'
    requires !('0' <= c <= '9' || 'a' <= c <= 'z' || 'A' <= c <= 'Z' || c == '_')
    ensures Pieces("$" + name + [c] + rest) ==
            [Ref(if |name| <= 511 then name else name[..511]), Lit(c)] + Pieces(rest)
  {
    hide AfterDollar;
    Assoc("$" + name, [c], rest);
    Assoc("$", name, [c] + rest);
    assert ("$" + (name + ([c] + rest)))[1..] == name + ([c] + rest);
    NameRest(name, 0, c, rest);
    assert name[0..] == name;
  }

  /** The same when `i` characters of the name have been read. */
  lemma {:induction false} NameRest(name: string, i: nat, c: char, rest: string)
    requires i <= |name| && (forall x :: x in name ==> IsNameChar(x)) && !IsNameChar(c)
    ensures AfterDollar(name[i..] + ([c] + rest), name[..if i <= 511 then i else 511]) ==
            [Ref(if |name| <= 511 then name else name[..511]), Lit(c)] + Pieces(rest)
    decreases |name| - i
  {
    var t := name[i..] + ([c] + rest);
    if i < |name| {
      hide Pieces;
      assert t[0] == name[i] && t[1..] == name[i + 1..] + ([c] + rest);
      assert i < 511 ==> name[..i] + [name[i]] == name[..i + 1];
      NameRest(name, i + 1, c, rest);
    } else {
      assert t == [c] + rest && t[1..] == rest;
      assert |name| <= 511 ==> name[..|name|] == name;
    }
  }

  function Verbatim(t: string): (ps: seq<Piece>)
    ensures |ps| == |t| && forall i :: 0 <= i < |t| ==> ps[i] == Lit(t[i])
  {
    if t == [] then [] else [Lit(t[0])] + Verbatim(t[1..])
  }

  /** The pieces still to come when the automaton has `t` before it, `name` being the name read so
      far. */
  function Rest(inVar: bool, escaped: bool, t: string, name: string): seq<Piece> {
    if inVar then AfterDollar(t, name) else if escaped then Verbatim(t) else Pieces(t)
  }

  lemma RestStep(inVar: bool, escaped: bool, t: string, name: string)
    requires t != [] && !(inVar && escaped)
    ensures var c, t' := t[0], t[1..];
            Rest(inVar, escaped, t, name) ==
              if inVar then
                if IsNameChar(c) then Rest(true, false, t', if |name| < MAX_VAR_BUF - 1 then name + [c] else name)
                else [Ref(name), Lit(c)] + Rest(false, false, t', name)
              else if !escaped && c == '\\' then Rest(false, true, t', name)
              else if !escaped && c == '$' then Rest(true, false, t', [])
              else [Lit(c)] + Rest(false, escaped, t', name)
  {
  }

  lemma RestAtEnds(t: string, name: string)
    ensures Rest(false, false, t, name) == Pieces(t)
    ensures forall inVar, escaped :: Rest(inVar, escaped, [], name) == []
  {
  }

  lemma RestOutside(t: string, name: string, name': string)
    ensures Rest(false, false, t, name) == Rest(false, false, t, name')
  {
  }

  /** The names referred to, in order. */
  function Refs(ps: seq<Piece>): seq<string> {
    if ps == [] then [] else (if ps[0].Ref? then [ps[0].name] else []) + Refs(ps[1..])
  }

  predicate Special(c: char) {
    c == '\'' || c == '"' || c == '\\'
  }

  function EscapeChar(c: char): (r: string)
    ensures 1 <= |r| <= 2
  {
    if Special(c) then ['\\', c] else [c]
  }

  function Escape(w: string): (r: string)
    ensures |w| <= |r| <= 2 * |w|
  {
    if w == [] then [] else EscapeChar(w[0]) + Escape(w[1..])
  }

  /** The expansion without any limit: `ws` are the words for the references, in order. */
  function Expand(ps: seq<Piece>, ws: seq<string>): string
    requires |ws| == |Refs(ps)|
  {
    if ps == [] then []
    else if ps[0].Lit? then [ps[0].c] + Expand(ps[1..], ws)
    else Escape(ws[0]) + Expand(ps[1..], ws[1..])
  }

  // ----- What escaping adds

  /** A word without quotes and backslashes stays as it is. */
  lemma {:induction false} EscapeKeeps(w: string)
    requires '\'' !in w && '"' !in w && '\\' !in w
    ensures Escape(w) == w
  {
    if w != [] {
      assert w[0] in w && forall c :: c in w[1..] ==> c in w;
      EscapeKeeps(w[1..]);
    }
  }

  /** How many quotes and backslashes there are in a word. */
  function Marks(w: string): nat {
    Count(w, '\'') + Count(w, '"') + Count(w, '\\')
  }

  /** Any word gets longer by one character for each of its quotes and backslashes. */
  lemma {:induction false} EscapeAdds(w: string)
    ensures |Escape(w)| == |w| + Count(w, '\'') + Count(w, '"') + Count(w, '\\')
  {
    if w != [] {
      EscapeAdds(w[1..]);
    }
  }

  /** The template with the words themselves in it. */
  function Filled(ps: seq<Piece>, ws: seq<string>): string
    requires |ws| == |Refs(ps)|
  {
    if ps == [] then []
    else if ps[0].Lit? then [ps[0].c] + Filled(ps[1..], ws)
    else ws[0] + Filled(ps[1..], ws[1..])
  }

  function AllMarks(ws: seq<string>): nat {
    if ws == [] then 0 else Marks(ws[0]) + AllMarks(ws[1..])
  }

  lemma {:induction false} ExpandIsFilled(ps: seq<Piece>, ws: seq<string>)
    requires |ws| == |Refs(ps)|
    requires forall w :: w in ws ==> '\'' !in w && '"' !in w && '\\' !in w
    ensures Expand(ps, ws) == Filled(ps, ws)
    decreases |ps|
  {
    if ps != [] {
      if ps[0].Lit? {
        ExpandIsFilled(ps[1..], ws);
      } else {
        assert ws[0] in ws && forall w :: w in ws[1..] ==> w in ws;
        EscapeKeeps(ws[0]);
        ExpandIsFilled(ps[1..], ws[1..]);
      }
    }
  }

  lemma {:induction false} ExpandAdds(ps: seq<Piece>, ws: seq<string>)
    requires |ws| == |Refs(ps)|
    ensures |Expand(ps, ws)| == |Filled(ps, ws)| + AllMarks(ws)
    decreases |ps|
  {
    hide Escape, Count;
    if ps != [] {
      if ps[0].Lit? {
        ExpandAdds(ps[1..], ws);
      } else {
        EscapeAdds(ws[0]);
        ExpandAdds(ps[1..], ws[1..]);
      }
    }
  }

  // ----- What the code builds in its buffer

  function PutLit(out: string, c: char, max: nat): string {
    if |out| + 1 < max then out + [c] else out
  }

  function PutWord(out: string, w: string, max: nat): string {
    if 2 * |w| + |out| + 2 < max then out + Escape(w) else out
  }

  /** The bounded expansion behind `out`. */
  function Render(ps: seq<Piece>, ws: seq<string>, max: nat, out: string): string
    requires |ws| == |Refs(ps)|
    decreases |ps|
  {
    if ps == [] then out
    else if ps[0].Lit? then Render(ps[1..], ws, max, PutLit(out, ps[0].c, max))
    else Render(ps[1..], ws[1..], max, PutWord(out, ws[0], max))
  }

  /** Literal characters, and twice the lengths of the words: the most an expansion can need. */
  function Need(ps: seq<Piece>, ws: seq<string>): nat
    requires |ws| == |Refs(ps)|
  {
    if ps == [] then 0
    else if ps[0].Lit? then 1 + Need(ps[1..], ws)
    else 2 * |ws[0]| + Need(ps[1..], ws[1..])
  }

  /** With room for what it can need and two characters more, the bounded expansion is the
      expansion. */
  lemma {:induction false} RenderIsExpand(ps: seq<Piece>, ws: seq<string>, max: nat, out: string)
    requires |ws| == |Refs(ps)| && |out| + Need(ps, ws) + 2 < max
    ensures Render(ps, ws, max, out) == out + Expand(ps, ws)
    decreases |ps|
  {
    if ps != [] {
      if ps[0].Lit? {
        RenderIsExpand(ps[1..], ws, max, PutLit(out, ps[0].c, max));
      } else {
        RenderIsExpand(ps[1..], ws[1..], max, PutWord(out, ws[0], max));
      }
    }
  }

  /** In every case the text and its terminator stay within the buffer. */
  lemma {:induction false} RenderWithinBuffer(ps: seq<Piece>, ws: seq<string>, max: nat, out: string)
    requires |ws| == |Refs(ps)| && |out| < max
    ensures |out| <= |Render(ps, ws, max, out)| < max
    decreases |ps|
  {
    if ps != [] {
      if ps[0].Lit? {
        RenderWithinBuffer(ps[1..], ws, max, PutLit(out, ps[0].c, max));
      } else {
        RenderWithinBuffer(ps[1..], ws[1..], max, PutWord(out, ws[0], max));
      }
    }
  }

  /** When a piece is left out: a literal character needs room for itself and the terminator, a word
      for twice its length and three characters more. */
  lemma {:induction false} RenderLast(
      ps: seq<Piece>, ws: seq<string>, p: Piece, w: string, max: nat, out: string)
    requires |ws| == |Refs(ps)|
    ensures var vs := if p.Lit? then ws else ws + [w];
            && |vs| == |Refs(ps + [p])|
            && var text := Render(ps, ws, max, out);
               Render(ps + [p], vs, max, out) ==
               if p.Lit? then if |text| + 2 <= max then text + [p.c] else text
               else if |text| + 2 * |w| + 3 <= max then text + Escape(w) else text
    decreases |ps|
  {
    hide Escape;
    if ps == [] {
      assert ps + [p] == [p];
    } else {
      assert (ps + [p])[1..] == ps[1..] + [p];
      if ps[0].Lit? {
        RenderLast(ps[1..], ws, p, w, max, PutLit(out, ps[0].c, max));
      } else {
        assert (ws + [w])[1..] == ws[1..] + [w];
        RenderLast(ps[1..], ws[1..], p, w, max, PutWord(out, ws[0], max));
      }
    }
  }

  /** What is left of the pieces, with their words, when some have been skipped. */
  ghost predicate Skips(ps: seq<Piece>, ws: seq<string>, qs: seq<Piece>, vs: seq<string>)
    requires |ws| == |Refs(ps)| && |vs| == |Refs(qs)|
    decreases |ps|
  {
    if ps == [] then qs == []
    else
      || (qs != [] && ps[0].Lit? && qs[0] == ps[0] && Skips(ps[1..], ws, qs[1..], vs))
      || (qs != [] && ps[0].Ref? && qs[0] == ps[0] && vs[0] == ws[0] && Skips(ps[1..], ws[1..], qs[1..], vs[1..]))
      || Skips(ps[1..], if ps[0].Lit? then ws else ws[1..], qs, vs)
  }

  /** Truncation drops whole pieces: a word is there with all its escapes or not at all. */
  lemma {:induction false} TruncationSkipsWholePieces(ps: seq<Piece>, ws: seq<string>, max: nat, out: string)
    returns (qs: seq<Piece>, vs: seq<string>)
    requires |ws| == |Refs(ps)|
    ensures |vs| == |Refs(qs)| && Skips(ps, ws, qs, vs) && Render(ps, ws, max, out) == out + Expand(qs, vs)
    decreases |ps|
  {
    hide Escape;
    if ps == [] {
      qs, vs := [], [];
    } else if ps[0].Lit? {
      qs, vs := TruncationSkipsWholePieces(ps[1..], ws, max, PutLit(out, ps[0].c, max));
      if |out| + 1 < max {
        qs := KeepPiece(ps[0], qs);
      }
    } else {
      qs, vs := TruncationSkipsWholePieces(ps[1..], ws[1..], max, PutWord(out, ws[0], max));
      if 2 * |ws[0]| + |out| + 2 < max {
        qs, vs := KeepPiece(ps[0], qs), [ws[0]] + vs;
      }
    }
  }

  function KeepPiece(p: Piece, qs: seq<Piece>): (rs: seq<Piece>)
    ensures rs != [] && rs[0] == p && rs[1..] == qs
  {
    [p] + qs
  }

  // ----- Drawing the words

  type Pool = map<string, Dict>

  ghost predicate UsablePool(pool: Pool) {
    forall n :: n in pool ==> Usable(pool[n])
  }

  /** The words drawn, and the dictionaries afterwards; or the process dies at the first name that
      is no dictionary. */
  datatype Drawn = Drawn(words: seq<string>, pool: Pool) | NoDictionary

  /** What was drawn behind the words `ws`. */
  function Behind(ws: seq<string>, d: Drawn): Drawn {
    if d.Drawn? then Drawn(ws + d.words, d.pool) else NoDictionary
  }

  /** Words for the names, in order; the `k`-th draw of the process sees `rnd(k)`. */
  ghost function DrawAll(pool: Pool, names: seq<string>, rnd: nat -> nat, k: nat): (d: Drawn)
    requires UsablePool(pool)
    ensures d.Drawn? ==> |d.words| == |names| && UsablePool(d.pool)
    decreases |names|
  {
    if names == [] then Drawn([], pool)
    else if names[0] !in pool then NoDictionary
    else
      NextUsable(pool[names[0]], rnd(k));
      var (w, d) := Next(pool[names[0]], rnd(k));
      Behind([w], DrawAll(pool[names[0] := d], names[1..], rnd, k + 1))
  }

  /** Drawing fails exactly if some name is no dictionary. */
  lemma {:induction false} DrawFails(pool: Pool, names: seq<string>, rnd: nat -> nat, k: nat)
    requires UsablePool(pool)
    ensures var d := DrawAll(pool, names, rnd, k);
            (d.NoDictionary? <==> exists n :: n in names && n !in pool) && (d.Drawn? ==> d.pool.Keys == pool.Keys)
    decreases |names|
  {
    hide Next, Usable;
    if names != [] && names[0] in pool {
      NextUsable(pool[names[0]], rnd(k));
      var (w, d) := Next(pool[names[0]], rnd(k));
      DrawFails(pool[names[0] := d], names[1..], rnd, k + 1);
      assert names == [names[0]] + names[1..];
    }
  }

  /** The words that were drawn from one dictionary. */
  function From(names: seq<string>, words: seq<string>, name: string): seq<string>
    requires |names| == |words|
  {
    if names == [] then []
    else (if names[0] == name then [words[0]] else []) + From(names[1..], words[1..], name)
  }

  /** Draws over a whole run. Whatever else is drawn in between, the `j`-th word drawn from a
      sequential dictionary is the `j`-th of its list, round and round. */
  lemma {:induction false} DrawnInTurn(pool: Pool, names: seq<string>, rnd: nat -> nat, k: nat, name: string)
    requires UsablePool(pool) && name in pool && pool[name].Sequential?
    ensures var d := DrawAll(pool, names, rnd, k);
            d.Drawn? ==>
              var list, cur, drawn := pool[name].words, pool[name].cur, From(names, d.words, name);
              && name in d.pool && d.pool[name] == Sequential(list, Around(cur + |drawn|, |list|))
              && forall j :: 0 <= j < |drawn| ==> drawn[j] == Turn(list, cur + j)
    decreases |names|
  {
    hide Next, Usable, Turn, Around, UsablePool, DrawAll, From;
    var d := DrawAll(pool, names, rnd, k);
    var list, cur := pool[name].words, pool[name].cur;
    UsableInPool(pool, name);
    if names == [] {
      DrawsNothing(pool, rnd, k, name);
    } else if d.Drawn? {
      FirstDraw(pool, names, rnd, k, name);
      var n0, rest := names[0], names[1..];
      var pool' := pool[n0 := Next(pool[n0], rnd(k)).1];
      var d' := DrawAll(pool', rest, rnd, k + 1);
      NextInTurn(list, cur, rnd(k));
      DrawnInTurn(pool', rest, rnd, k + 1, name);
      if n0 == name {
        TurnStep(list, cur, From(rest, d'.words, name));
      }
    }
  }

  lemma UsableInPool(pool: Pool, name: string)
    requires UsablePool(pool) && name in pool && pool[name].Sequential?
    ensures var d := pool[name]; d.cur < |d.words| && Around(d.cur, |d.words|) == d.cur
  {
    UsableSequential(pool[name]);
  }

  lemma DrawsNothing(pool: Pool, rnd: nat -> nat, k: nat, name: string)
    requires UsablePool(pool)
    ensures DrawAll(pool, [], rnd, k) == Drawn([], pool) && From([], [], name) == []
  {
  }

  /** Drawing for a list of names is drawing for the first and then for the others. */
  lemma {:induction false} FirstDraw(pool: Pool, names: seq<string>, rnd: nat -> nat, k: nat, name: string)
    requires UsablePool(pool) && names != [] && DrawAll(pool, names, rnd, k).Drawn?
    ensures names[0] in pool && Usable(pool[names[0]])
    ensures var d, n := DrawAll(pool, names, rnd, k), Next(pool[names[0]], rnd(k));
            var pool' := pool[names[0] := n.1];
            && UsablePool(pool')
            && var d' := DrawAll(pool', names[1..], rnd, k + 1);
               && d' == Drawn(d.words[1..], d.pool) && d.words[0] == n.0
               && From(names, d.words, name) ==
                  (if names[0] == name then [n.0] else []) + From(names[1..], d'.words, name)
  {
    hide Next, Usable;
    NextUsable(pool[names[0]], rnd(k));
    var n := Next(pool[names[0]], rnd(k));
    var d' := DrawAll(pool[names[0] := n.1], names[1..], rnd, k + 1);
    assert d'.Drawn? ==> ([n.0] + d'.words)[1..] == d'.words;
  }

  lemma NextInTurn(list: seq<string>, cur: nat, rnd: nat)
    requires cur < |list|
    ensures Next(Sequential(list, cur), rnd) == (list[cur], Sequential(list, Around(cur + 1, |list|)))
  {
    SequentialDraws(list, cur, rnd);
  }

  lemma UsableSequential(d: Dict)
    requires Usable(d) && d.Sequential?
    ensures d.cur < |d.words| && Around(d.cur, |d.words|) == d.cur
  {
  }

  /** The word at place `i` of a list that is gone through round and round. */
  function Turn(list: seq<string>, i: nat): string
    requires list != []
  {
    list[Around(i, |list|)]
  }

  /** The place at which one is after `i` steps round and round `n` places. */
  function Around(i: nat, n: nat): (r: nat)
    requires n > 0
    ensures r < n
  {
    i % n
  }

  // ----- Random words

  /** The random number that a draw uses up decides the word: of `n` words it is the one whose place is
      the remainder of the number divided by `n`. */
  lemma {:induction false} RandomDraws(pool: Pool, names: seq<string>, rnd: nat -> nat, k: nat, name: string)
    requires UsablePool(pool) && name in pool && pool[name].Random?
    ensures pool[name].words != []
    ensures var d := DrawAll(pool, names, rnd, k);
            d.Drawn? ==>
              var list := pool[name].words;
              && name in d.pool && d.pool[name] == pool[name]
              && forall j :: 0 <= j < |names| && names[j] == name ==> d.words[j] == list[rnd(k + j) % |list|]
    decreases |names|
  {
    hide Next, Usable, UsablePool, DrawAll, From;
    var d := DrawAll(pool, names, rnd, k);
    var list := pool[name].words;
    NextRandom(pool, name, rnd(k));
    if names == [] {
      DrawsNothing(pool, rnd, k, name);
    } else if d.Drawn? {
      FirstDraw(pool, names, rnd, k, name);
      var pool' := pool[names[0] := Next(pool[names[0]], rnd(k)).1];
      RandomDraws(pool', names[1..], rnd, k + 1, name);
      forall j | 0 <= j < |names| && names[j] == name ensures d.words[j] == list[rnd(k + j) % |list|] {
        if j > 0 {
          assert names[1..][j - 1] == name && d.words[1..][j - 1] == d.words[j] && rnd(k + 1 + (j - 1)) == rnd(k + j);
        }
      }
    }
  }

  lemma NextRandom(pool: Pool, name: string, rnd: nat)
    requires UsablePool(pool) && name in pool && pool[name].Random?
    ensures var list := pool[name].words;
            Usable(pool[name]) && list != [] && Next(pool[name], rnd) == (list[rnd % |list|], pool[name])
  {
    assert Usable(pool[name]);
  }

  // ----- Unique words

  /** Whatever else is drawn in between, the `j`-th word drawn from a unique dictionary is the one for
      its `j`-th id from where it stands. */
  lemma {:induction false} UniqueInTurn(pool: Pool, names: seq<string>, rnd: nat -> nat, k: nat, name: string)
    requires UsablePool(pool) && name in pool && pool[name].Unique? && DecimalTemplate(pool[name].templ)
    ensures var d := DrawAll(pool, names, rnd, k);
            d.Drawn? ==>
              var templ, id, drawn := pool[name].templ, pool[name].id, From(names, d.words, name);
              && name in d.pool && d.pool[name] == Unique(templ, id + |drawn|)
              && forall j :: 0 <= j < |drawn| ==> drawn[j] == Printed(templ, id + j)
    decreases |names|
  {
    hide Next, Usable, UsablePool, DrawAll, From, Printed, DecimalTemplate;
    var d := DrawAll(pool, names, rnd, k);
    var templ, id := pool[name].templ, pool[name].id;
    if names == [] {
      DrawsNothing(pool, rnd, k, name);
    } else if d.Drawn? {
      FirstDraw(pool, names, rnd, k, name);
      var n0, rest := names[0], names[1..];
      var pool' := pool[n0 := Next(pool[n0], rnd(k)).1];
      var d' := DrawAll(pool', rest, rnd, k + 1);
      NextUnique(templ, id, rnd(k));
      UniqueInTurn(pool', rest, rnd, k + 1, name);
      var drawn := From(rest, d'.words, name);
      if n0 == name {
        var all := [Printed(templ, id)] + drawn;
        forall j | 0 <= j < |all| ensures all[j] == Printed(templ, id + j) {
          assert j > 0 ==> all[j] == drawn[j - 1] == Printed(templ, id + 1 + (j - 1));
        }
      } else {
        assert [] + drawn == drawn;
      }
    }
  }

  lemma NextUnique(templ: string, id: nat, rnd: nat)
    requires DecimalTemplate(templ)
    ensures Next(Unique(templ, id), rnd) == (Printed(templ, id), Unique(templ, id + 1))
  {
  }

  /** The words for `n` ids fit their buffer. */
  ghost predicate AllFit(templ: string, id: nat, n: nat)
    requires DecimalTemplate(templ)
  {
    forall i :: id <= i < id + n ==> |Formatted(templ, i)| < MAX_UNIQUE
  }

  /** The words for a series of ids that fit the buffer are all different if and only if the template
      has a field or there is at most one of them. */
  lemma {:induction false} UniqueDrawsDistinct(templ: string, id: nat, drawn: seq<string>)
    requires DecimalTemplate(templ) && forall j :: 0 <= j < |drawn| ==> drawn[j] == Printed(templ, id + j)
    requires AllFit(templ, id, |drawn|)
    ensures Distinct(drawn) <==> '%' in templ || |drawn| <= 1
  {
    hide Printed, Formatted, DecimalTemplate;
    if '%' in templ {
      forall i, j | 0 <= i < j < |drawn| ensures drawn[i] != drawn[j] {
        UniqueWordsDistinct(templ, id + i, id + j);
      }
    } else if |drawn| > 1 {
      UniqueWordsDistinct(templ, id, id + 1);
      assert drawn[0] == Printed(templ, id + 0) && drawn[1] == Printed(templ, id + 1);
    }
  }

  lemma {:induction false} FromLength(names: seq<string>, a: seq<string>, b: seq<string>, name: string)
    requires |names| == |a| == |b|
    ensures |From(names, a, name)| == |From(names, b, name)|
  {
    if names != [] {
      FromLength(names[1..], a[1..], b[1..], name);
    }
  }

  /** Two processes that start with the same dictionaries and draw for the same names get the same
      words, in the same order, from every dictionary but the random ones. */
  lemma {:induction false} ForksDrawAlike(
      pool: Pool, names: seq<string>, rnd: nat -> nat, k: nat, rnd': nat -> nat, k': nat, name: string)
    requires UsablePool(pool) && name in pool && !pool[name].Random?
    ensures var d, d' := DrawAll(pool, names, rnd, k), DrawAll(pool, names, rnd', k');
            && (d.Drawn? <==> d'.Drawn?)
            && (d.Drawn? ==> From(names, d.words, name) == From(names, d'.words, name))
  {
    hide DrawAll, From, UsablePool, Turn;
    DrawFails(pool, names, rnd, k);
    DrawFails(pool, names, rnd', k');
    var d, d' := DrawAll(pool, names, rnd, k), DrawAll(pool, names, rnd', k');
    if d.Drawn? {
      FromLength(names, d.words, d'.words, name);
      if pool[name].Unique? {
        UniqueTemplate(pool, name);
        UniqueInTurn(pool, names, rnd, k, name);
        UniqueInTurn(pool, names, rnd', k', name);
      } else {
        DrawnInTurn(pool, names, rnd, k, name);
        DrawnInTurn(pool, names, rnd', k', name);
      }
    }
  }

  lemma UniqueTemplate(pool: Pool, name: string)
    requires UsablePool(pool) && name in pool && pool[name].Unique?
    ensures DecimalTemplate(pool[name].templ)
  {
    assert Usable(pool[name]);
  }

  /** One draw in turn before others. */
  lemma {:induction false} TurnStep(list: seq<string>, cur: nat, drawn: seq<string>)
    requires cur < |list|
    requires forall j :: 0 <= j < |drawn| ==> drawn[j] == Turn(list, Around(cur + 1, |list|) + j)
    ensures Around(Around(cur + 1, |list|) + |drawn|, |list|) == Around(cur + |[list[cur]] + drawn|, |list|)
    ensures var all := [list[cur]] + drawn; forall j :: 0 <= j < |all| ==> all[j] == Turn(list, cur + j)
  {
    var all := [list[cur]] + drawn;
    ModAdd(cur + 1, |drawn|, |list|);
    DivModUnique(cur, |list|, 0, cur);
    assert all[0] == Turn(list, cur + 0);
    forall j | 1 <= j < |all| ensures all[j] == Turn(list, cur + j) {
      ModAdd(cur + 1, j - 1, |list|);
      assert all[j] == drawn[j - 1] == Turn(list, Around(cur + 1, |list|) + (j - 1));
    }
  }

  // ----- How often each word is drawn

  /** How often the draws from the `a`-th up to the `b`-th hit a place below `m` with the word `x`. */
  function Uses(list: seq<string>, x: string, a: nat, b: nat, m: nat): int
    requires m <= |list| && list != []
  {
    if m == 0 then 0
    else Uses(list, x, a, b, m - 1) + (if list[m - 1] == x then Hits(b, |list|, m - 1) - Hits(a, |list|, m - 1) else 0)
  }

  lemma {:induction false} UsesNone(list: seq<string>, x: string, a: nat, m: nat)
    requires m <= |list| && list != []
    ensures Uses(list, x, a, a, m) == 0
  {
    if m > 0 {
      UsesNone(list, x, a, m - 1);
    }
  }

  /** One more draw hits one more place. */
  lemma {:induction false} UsesOneMore(list: seq<string>, x: string, a: nat, b: nat, m: nat)
    requires m <= |list| && list != []
    ensures Uses(list, x, a, b + 1, m) == Uses(list, x, a, b, m)
                                          + (if b % |list| < m && list[b % |list|] == x then 1 else 0)
  {
    if m > 0 {
      UsesOneMore(list, x, a, b, m - 1);
    }
  }

  /** The words drawn in turn are counted by the places hit. */
  lemma {:induction false} WordsAreUses(list: seq<string>, cur: nat, drawn: seq<string>, x: string)
    requires list != [] && forall j :: 0 <= j < |drawn| ==> drawn[j] == Turn(list, cur + j)
    ensures multiset(drawn)[x] == Uses(list, x, cur, cur + |drawn|, |list|)
    decreases |drawn|
  {
    hide Uses;
    if drawn == [] {
      UsesNone(list, x, cur, |list|);
    } else {
      var k := |drawn| - 1;
      WordsAreUses(list, cur, drawn[..k], x);
      UsesOneMore(list, x, cur, cur + k, |list|);
      assert drawn == drawn[..k] + [drawn[k]];
    }
  }

  /** `k / n`, rounded up. */
  function RoundsBegun(k: nat, n: nat): nat
    requires n > 0
  {
    if k % n == 0 then k / n else k / n + 1
  }

  function Product(a: nat, b: nat): nat {
    a * b
  }

  lemma ProductNext(a: nat, b: nat)
    ensures Product(a, 0) == 0 && Product(a, b + 1) == Product(a, b) + a
  {
    Distribute(b, 1, a);
  }

  lemma {:induction false} UsesBetween(list: seq<string>, x: string, a: nat, b: nat, m: nat, least: nat, most: nat)
    requires m <= |list| && list != []
    requires forall i: nat :: i < |list| ==> least <= Hits(b, |list|, i) - Hits(a, |list|, i) <= most
    ensures var copies := multiset(list[..m])[x];
            Product(least, copies) <= Uses(list, x, a, b, m) <= Product(most, copies)
  {
    hide Hits, Product;
    var copies := if m > 0 then multiset(list[..m - 1])[x] else 0;
    ProductNext(least, copies);
    ProductNext(most, copies);
    if m > 0 {
      UsesBetween(list, x, a, b, m - 1, least, most);
      assert list[..m] == list[..m - 1] + [list[m - 1]];
    }
  }

  lemma {:induction false} UsesShared(list: seq<string>, x: string, cur: nat, k: nat)
    requires list != []
    ensures (k / |list|) * multiset(list)[x] <= Uses(list, x, cur, cur + k, |list|)
            <= RoundsBegun(k, |list|) * multiset(list)[x]
  {
    hide Hits, Uses;
    forall i: nat | i < |list|
      ensures k / |list| <= Hits(cur + k, |list|, i) - Hits(cur, |list|, i) <= RoundsBegun(k, |list|)
    {
      FairFromAnywhere(cur, k, |list|, i);
    }
    assert list[..|list|] == list;
    UsesBetween(list, x, cur, cur + k, |list|, k / |list|, RoundsBegun(k, |list|));
  }

  /** Of the words drawn each is there as often as in so many copies of the list: as many as whole
      rounds were drawn, or as many as were begun. */
  ghost predicate SharedFairly(list: seq<string>, drawn: seq<string>)
    requires list != []
  {
    forall x :: (|drawn| / |list|) * multiset(list)[x] <= multiset(drawn)[x]
                <= RoundsBegun(|drawn|, |list|) * multiset(list)[x]
  }

  lemma {:induction false} TurnsAreShared(list: seq<string>, cur: nat, drawn: seq<string>)
    requires list != [] && forall j :: 0 <= j < |drawn| ==> drawn[j] == Turn(list, cur + j)
    ensures SharedFairly(list, drawn)
  {
    hide Uses, Turn, RoundsBegun;
    forall x: string
      ensures (|drawn| / |list|) * multiset(list)[x] <= multiset(drawn)[x]
              <= RoundsBegun(|drawn|, |list|) * multiset(list)[x]
    {
      WordsAreUses(list, cur, drawn, x);
      UsesShared(list, x, cur, |drawn|);
    }
  }

  /** Of a list without duplicates each word is drawn `k / n` times, rounded down or up. */
  lemma {:induction false} EachWordShared(list: seq<string>, drawn: seq<string>, i: nat)
    requires i < |list| && SharedFairly(list, drawn)
    requires Distinct(list)
    ensures |drawn| / |list| <= multiset(drawn)[list[i]] <= RoundsBegun(|drawn|, |list|)
  {
    hide RoundsBegun;
    OnceInList(list, i);
    assert multiset(list)[list[i]] == 1;
  }

  lemma {:induction false} OnceInList(list: seq<string>, i: nat)
    requires i < |list| && Distinct(list)
    ensures multiset(list)[list[i]] == 1
  {
    assert list == list[..i] + [list[i]] + list[i + 1..];
    assert list[i] !in list[..i] && list[i] !in list[i + 1..];
  }

  lemma {:induction false} ModAdd(a: nat, b: nat, n: nat)
    requires n > 0
    ensures (a % n + b) % n == (a + b) % n
  {
    DivMod(a, n);
    DivMod(a % n + b, n);
    var q := (a % n + b) / n;
    Distribute(a / n, q, n);
    DivModUnique(a + b, n, a / n + q, (a % n + b) % n);
  }

  lemma {:induction false} DrawAllConcat(pool: Pool, a: seq<string>, b: seq<string>, rnd: nat -> nat, k: nat)
    requires UsablePool(pool)
    ensures var x := DrawAll(pool, a, rnd, k);
            DrawAll(pool, a + b, rnd, k) == if x.Drawn? then Behind(x.words, DrawAll(x.pool, b, rnd, k + |a|)) else x
    decreases |a|
  {
    hide Next, Usable;
    if a == [] {
      assert a + b == b;
      var d := DrawAll(pool, b, rnd, k);
      assert d.Drawn? ==> [] + d.words == d.words;
    } else if a[0] in pool {
      assert (a + b)[1..] == a[1..] + b && (a + b)[0] == a[0];
      NextUsable(pool[a[0]], rnd(k));
      var (w, d) := Next(pool[a[0]], rnd(k));
      var pool' := pool[a[0] := d];
      DrawAllConcat(pool', a[1..], b, rnd, k + 1);
      var x := DrawAll(pool', a[1..], rnd, k + 1);
      if x.Drawn? {
        BehindTwice([w], x.words, DrawAll(x.pool, b, rnd, k + |a|));
      }
    }
  }

  lemma BehindTwice(a: seq<string>, b: seq<string>, d: Drawn)
    ensures Behind(a, Behind(b, d)) == Behind(a + b, d)
  {
    assert d.Drawn? ==> a + (b + d.words) == (a + b) + d.words;
  }

  // ----- Drawing and building in one go, as the code does

  datatype Expansion = Expansion(text: string, pool: Pool, draws: nat) | Missing

  ghost function Build(ps: seq<Piece>, pool: Pool, rnd: nat -> nat, k: nat, max: nat, out: string): Expansion
    requires UsablePool(pool)
    decreases |ps|
  {
    if ps == [] then Expansion(out, pool, k)
    else
      match ps[0]
      case Lit(c) => Build(ps[1..], pool, rnd, k, max, PutLit(out, c, max))
      case Ref(name) =>
        if name !in pool then Missing
        else
          NextUsable(pool[name], rnd(k));
          var (w, d) := Next(pool[name], rnd(k));
          Build(ps[1..], pool[name := d], rnd, k + 1, max, PutWord(out, w, max))
  }

  /** Exactly one word is drawn for each reference, left to right, and they are what the text is
      built from. */
  lemma {:induction false} BuildIsDrawAndRender(
      ps: seq<Piece>, pool: Pool, rnd: nat -> nat, k: nat, max: nat, out: string)
    requires UsablePool(pool)
    ensures Build(ps, pool, rnd, k, max, out) ==
            match DrawAll(pool, Refs(ps), rnd, k)
            case NoDictionary => Missing
            case Drawn(ws, p) => Expansion(Render(ps, ws, max, out), p, k + |Refs(ps)|)
    decreases |ps|
  {
    hide Next, Usable, PutLit, PutWord;
    if ps != [] {
      match ps[0] {
        case Lit(c) =>
          assert Refs(ps) == Refs(ps[1..]);
          BuildIsDrawAndRender(ps[1..], pool, rnd, k, max, PutLit(out, c, max));
        case Ref(name) =>
          assert Refs(ps)[1..] == Refs(ps[1..]);
          if name in pool {
            NextUsable(pool[name], rnd(k));
            var (w, d) := Next(pool[name], rnd(k));
            var d' := DrawAll(pool[name := d], Refs(ps[1..]), rnd, k + 1);
            BuildIsDrawAndRender(ps[1..], pool[name := d], rnd, k + 1, max, PutWord(out, w, max));
            assert d'.Drawn? ==> ([w] + d'.words)[1..] == d'.words;
          }
      }
    }
  }

  lemma BuildLit(ps: seq<Piece>, pool: Pool, rnd: nat -> nat, k: nat, max: nat, out: string)
    requires UsablePool(pool) && ps != [] && ps[0].Lit?
    ensures Build(ps, pool, rnd, k, max, out) == Build(ps[1..], pool, rnd, k, max, PutLit(out, ps[0].c, max))
  {
  }

  lemma BuildRef(ps: seq<Piece>, pool: Pool, rnd: nat -> nat, k: nat, max: nat, out: string)
    requires UsablePool(pool) && ps != [] && ps[0].Ref?
    ensures ps[0].name !in pool ==> Build(ps, pool, rnd, k, max, out) == Missing
    ensures ps[0].name in pool ==>
              var n := Next(pool[ps[0].name], rnd(k));
              && Usable(n.1)
              && Build(ps, pool, rnd, k, max, out)
              == Build(ps[1..], pool[ps[0].name := n.1], rnd, k + 1, max, PutWord(out, n.0, max))
  {
    hide Next, Usable;
    if ps[0].name in pool {
      NextUsable(pool[ps[0].name], rnd(k));
    }
  }

  lemma BuildNothing(pool: Pool, rnd: nat -> nat, k: nat, max: nat, out: string)
    requires UsablePool(pool)
    ensures Build([], pool, rnd, k, max, out) == Expansion(out, pool, k)
  {
  }
}
