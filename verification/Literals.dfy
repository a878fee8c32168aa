/** What a database makes of an expanded query: words stay inside the literals they were put in. */
module Literals {
  import opened CStrings
  import opened Expander

  type Quote = c: char | c == '\'' || c == '"' witness '"'

  /** An SQL statement, character by character, with the escapes inside literals resolved. */
  datatype Sql = Outside(c: char) | Open(q: Quote) | Inside(c: char) | Close(q: Quote)

  datatype Mode = Out | In(q: Quote) | Escaped(q: Quote)

  /** A scanner that knows both quotes and the backslash. */
  function ScanChar(m: Mode, c: char): (Mode, seq<Sql>) {
    match m
    case Out => if c == '\'' || c == '"' then (In(c), [Open(c)]) else (Out, [Outside(c)])
    case In(q) =>
      if c == '\\' then (Escaped(q), [])
      else if c == q then (Out, [Close(q)])
      else (m, [Inside(c)])
    case Escaped(q) => (In(q), [Inside(c)])
  }

  function Scan(m: Mode, text: string): seq<Sql>
    decreases |text|
  {
    if text == [] then []
    else
      var (m', sql) := ScanChar(m, text[0]);
      sql + Scan(m', text[1..])
  }

  lemma ScanFirst(m: Mode, c: char, rest: string)
    ensures Scan(m, [c] + rest) == ScanChar(m, c).1 + Scan(ScanChar(m, c).0, rest)
  {
    assert ([c] + rest)[1..] == rest;
  }

  function InsideAll(w: string): (sql: seq<Sql>)
    ensures |sql| == |w| && forall i :: 0 <= i < |w| ==> sql[i] == Inside(w[i])
  {
    if w == [] then [] else [Inside(w[0])] + InsideAll(w[1..])
  }

  /** The template read as SQL, each reference standing for the raw characters of its word. */
  function Reading(m: Mode, ps: seq<Piece>, ws: seq<string>): seq<Sql>
    requires |ws| == |Refs(ps)|
    decreases |ps|
  {
    if ps == [] then []
    else
      match ps[0]
      case Lit(c) => var (m', sql) := ScanChar(m, c); sql + Reading(m', ps[1..], ws)
      case Ref(_) => InsideAll(ws[0]) + Reading(m, ps[1..], ws[1..])
  }

  /** Every reference lies inside a quoted literal, and not behind a backslash. */
  predicate QuotedRefs(m: Mode, ps: seq<Piece>)
    decreases |ps|
  {
    ps == [] ||
    match ps[0]
    case Lit(c) => QuotedRefs(ScanChar(m, c).0, ps[1..])
    case Ref(_) => m.In? && QuotedRefs(m, ps[1..])
  }

  lemma EscapedChar(q: Quote, c: char, rest: string)
    ensures Scan(In(q), EscapeChar(c) + rest) == [Inside(c)] + Scan(In(q), rest)
  {
    hide Scan;
    ScanFirst(In(q), c, rest);
    if Special(c) {
      ScanFirst(In(q), '\\', [c] + rest);
      ScanFirst(Escaped(q), c, rest);
      assert ['\\', c] + rest == ['\\'] + ([c] + rest);
    }
  }

  /** Inside a literal an escaped word is read back as the word, and the literal goes on. */
  lemma {:induction false} EscapeIsReadBack(q: Quote, w: string, rest: string)
    ensures Scan(In(q), Escape(w) + rest) == InsideAll(w) + Scan(In(q), rest)
  {
    if w == [] {
      assert Escape(w) + rest == rest;
    } else {
      hide Scan, ScanChar, EscapeChar;
      EscapeIsReadBack(q, w[1..], rest);
      EscapedChar(q, w[0], Escape(w[1..]) + rest);
      Assoc(EscapeChar(w[0]), Escape(w[1..]), rest);
      Assoc([Inside(w[0])], InsideAll(w[1..]), Scan(In(q), rest));
    }
  }

  /** Literal preservation: whatever words are drawn, the database sees the literals and the text of
      the template, each literal with the words themselves where the template names them. */
  lemma {:induction false} LiteralsKept(m: Mode, ps: seq<Piece>, ws: seq<string>)
    requires |ws| == |Refs(ps)| && QuotedRefs(m, ps)
    ensures Scan(m, Expand(ps, ws)) == Reading(m, ps, ws)
    decreases |ps|
  {
    if ps != [] {
      match ps[0] {
        case Lit(c) =>
          var rest := Expand(ps[1..], ws);
          LiteralsKept(ScanChar(m, c).0, ps[1..], ws);
          ScanFirst(m, c, rest);
        case Ref(_) =>
          LiteralsKept(m, ps[1..], ws[1..]);
          EscapeIsReadBack(m.q, ws[0], Expand(ps[1..], ws[1..]));
      }
    }
  }

  /** The text that reaches the database when the buffer has room for it. */
  lemma {:induction false} SentQueryKeepsLiterals(t: string, ws: seq<string>, max: nat)
    requires |ws| == |Refs(Pieces(t))| && QuotedRefs(Out, Pieces(t)) && Need(Pieces(t), ws) + 2 < max
    ensures Scan(Out, Render(Pieces(t), ws, max, [])) == Reading(Out, Pieces(t), ws)
  {
    RenderIsExpand(Pieces(t), ws, max, []);
    LiteralsKept(Out, Pieces(t), ws);
    assert [] + Expand(Pieces(t), ws) == Expand(Pieces(t), ws);
  }

  // ----- Exactly when the words cannot change a statement

  /** A statement without the contents of its literals. */
  function Skeleton(sql: seq<Sql>): seq<Sql> {
    if sql == [] then [] else (if sql[0].Inside? then [] else [sql[0]]) + Skeleton(sql[1..])
  }

  lemma {:induction false} SkeletonConcat(a: seq<Sql>, b: seq<Sql>)
    ensures Skeleton(a + b) == Skeleton(a) + Skeleton(b)
  {
    if a == [] {
      assert a + b == b;
    } else {
      assert (a + b)[1..] == a[1..] + b;
      SkeletonConcat(a[1..], b);
    }
  }

  lemma SkeletonOfOne(c: Sql)
    ensures Skeleton([c]) == if c.Inside? then [] else [c]
  {
    assert [c][1..] == [];
  }

  lemma {:induction false} SkeletonOfWord(w: string)
    ensures Skeleton(InsideAll(w)) == []
  {
    if w != [] {
      assert InsideAll(w)[1..] == InsideAll(w[1..]);
      SkeletonOfWord(w[1..]);
    }
  }

  lemma {:induction false} SkeletonOfReading(m: Mode, ps: seq<Piece>, ws: seq<string>, vs: seq<string>)
    requires |ws| == |vs| == |Refs(ps)|
    ensures Skeleton(Reading(m, ps, ws)) == Skeleton(Reading(m, ps, vs))
    decreases |ps|
  {
    if ps != [] {
      match ps[0] {
        case Lit(c) =>
          var (m', sql) := ScanChar(m, c);
          SkeletonOfReading(m', ps[1..], ws, vs);
          SkeletonConcat(sql, Reading(m', ps[1..], ws));
          SkeletonConcat(sql, Reading(m', ps[1..], vs));
        case Ref(_) =>
          SkeletonOfReading(m, ps[1..], ws[1..], vs[1..]);
          SkeletonConcat(InsideAll(ws[0]), Reading(m, ps[1..], ws[1..]));
          SkeletonConcat(InsideAll(vs[0]), Reading(m, ps[1..], vs[1..]));
          SkeletonOfWord(ws[0]);
          SkeletonOfWord(vs[0]);
      }
    }
  }

  function Structure(ps: seq<Piece>, ws: seq<string>): seq<Sql>
    requires |ws| == |Refs(ps)|
  {
    Skeleton(Scan(Out, Expand(ps, ws)))
  }

  ghost predicate WordsDoNotMatter(ps: seq<Piece>) {
    forall ws: seq<string>, vs: seq<string> ::
      |ws| == |Refs(ps)| && |vs| == |Refs(ps)| ==> Structure(ps, ws) == Structure(ps, vs)
  }

  /** No more is left of a text than it has characters. */
  lemma {:induction false} SkeletonBound(m: Mode, text: string)
    ensures |Skeleton(Scan(m, text))| <= |text|
    decreases |text|
  {
    if text != [] {
      var (m', sql) := ScanChar(m, text[0]);
      SkeletonBound(m', text[1..]);
      SkeletonConcat(sql, Scan(m', text[1..]));
      if sql != [] {
        SkeletonOfOne(sql[0]);
      }
    }
  }

  /** Outside of literals letters stay. */
  lemma {:induction false} LettersStay(k: nat, text: string)
    ensures |Skeleton(Scan(Out, Repeat('a', k) + text))| >= k
  {
    if k > 0 {
      var rest := Repeat('a', k - 1) + text;
      LettersStay(k - 1, text);
      Assoc(['a'], Repeat('a', k - 1), text);
      ScanFirst(Out, 'a', rest);
      SkeletonConcat([Outside('a')], Scan(Out, rest));
      SkeletonOfOne(Outside('a'));
    }
  }

  lemma {:induction false} EscapeLetters(k: nat)
    ensures Escape(Repeat('a', k)) == Repeat('a', k)
  {
    if k > 0 {
      assert Repeat('a', k)[1..] == Repeat('a', k - 1);
      EscapeLetters(k - 1);
    }
  }

  /** A word that shows wherever it is not inside a literal. Behind a backslash it begins with the
      quote, which closes the literal, since the backslash that should have escaped it is used up. */
  function Telltale(m: Mode, k: nat): string {
    if m.Escaped? then [m.q] + Repeat('a', k) else Repeat('a', k)
  }

  lemma {:induction false} TelltaleShows(m: Mode, k: nat, text: string)
    requires !m.In?
    ensures |Skeleton(Scan(m, Escape(Telltale(m, k)) + text))| >= k
  {
    hide Scan;
    var letters := Repeat('a', k);
    EscapeLetters(k);
    LettersStay(k, text);
    if m.Escaped? {
      var rest := [m.q] + (letters + text);
      assert ([m.q] + letters)[1..] == letters;
      assert Escape(Telltale(m, k)) + text == ['\\'] + rest;
      ScanFirst(m, '\\', rest);
      ScanFirst(In(m.q), m.q, letters + text);
      SkeletonConcat([Inside('\\')], Scan(In(m.q), rest));
      SkeletonConcat([Close(m.q)], Scan(Out, letters + text));
    }
  }

  function Same(w: string, n: nat): (ws: seq<string>)
    ensures |ws| == n && forall i :: 0 <= i < n ==> ws[i] == w
  {
    seq(n, _ => w)
  }

  /** If a reference is not inside a literal, some words make the statement as long as one likes, not
      counting the contents of literals. */
  lemma {:induction false} SomeWordsShow(m: Mode, ps: seq<Piece>, k: nat) returns (ws: seq<string>)
    requires !QuotedRefs(m, ps)
    ensures |ws| == |Refs(ps)| && |Skeleton(Scan(m, Expand(ps, ws)))| >= k
    decreases |ps|
  {
    hide Scan, Skeleton;
    var rest := ps[1..];
    match ps[0] {
      case Lit(c) =>
        var (m', sql) := ScanChar(m, c);
        ws := SomeWordsShow(m', rest, k);
        ScanFirst(m, c, Expand(rest, ws));
        SkeletonConcat(sql, Scan(m', Expand(rest, ws)));
      case Ref(_) =>
        if m.In? {
          var vs := SomeWordsShow(m, rest, k);
          ws := [""] + vs;
          assert ws[1..] == vs && Expand(ps, ws) == [] + Expand(rest, vs) == Expand(rest, vs);
        } else {
          var vs := Same("", |Refs(rest)|);
          ws := [Telltale(m, k)] + vs;
          assert ws[1..] == vs;
          TelltaleShows(m, k, Expand(rest, vs));
        }
    }
  }

  /** For every template: its words cannot change what surrounds and separates its literals if and
      only if it names them inside of literals, and not behind a backslash there. */
  lemma {:induction false} WordsMatterOnlyOutside(t: string)
    ensures WordsDoNotMatter(Pieces(t)) <==> QuotedRefs(Out, Pieces(t))
  {
    hide Skeleton, Scan, Expand, Pieces;
    var ps := Pieces(t);
    if QuotedRefs(Out, ps) {
      forall ws: seq<string>, vs: seq<string> | |ws| == |Refs(ps)| && |vs| == |Refs(ps)|
        ensures Structure(ps, ws) == Structure(ps, vs)
      {
        LiteralsKept(Out, ps, ws);
        LiteralsKept(Out, ps, vs);
        SkeletonOfReading(Out, ps, ws, vs);
      }
    } else {
      var vs := Same("", |Refs(ps)|);
      var ws := SomeWordsShow(Out, ps, |Expand(ps, vs)| + 1);
      SkeletonBound(Out, Expand(ps, vs));
      assert Structure(ps, ws) != Structure(ps, vs);
    }
  }
}
