/** What a template promises, and when it gets it. */
module Templates {
  import opened CStrings
  import opened Dictionaries
  import opened Expander

  // ----- The promise

  /** The reading that the manual promises: each `$name` is a reference, a backslash protects one
      character, and what ends a name is read like any other character. */
  function Meant(t: string): seq<Piece>
    decreases |t|, 0
  {
    if t == [] then []
    else if t[0] == '\\' then if |t| == 1 then [] else [Lit(t[1])] + Meant(t[2..])
    else if t[0] == '$' then MeantName(t[1..], [])
    else [Lit(t[0])] + Meant(t[1..])
  }

  function MeantName(t: string, name: string): seq<Piece>
    decreases |t|, 1
  {
    if t != [] && IsNameChar(t[0]) then MeantName(t[1..], name + [t[0]]) else [Ref(name)] + Meant(t)
  }

  /** Text without anything to expand or to protect. */
  predicate Plain(t: string) {
    '$' !in t && '\\' !in t
  }

  /** The templates that the code reads as promised. Behind the character that the first backslash
      protects there is nothing to expand or to protect; and every name is fine. */
  predicate Fine(t: string)
    decreases |t|, 0
  {
    if t == [] then true
    else if t[0] == '\\' then |t| < 2 || Plain(t[2..])
    else if t[0] == '$' then FineName(t[1..], 0)
    else Fine(t[1..])
  }

  /** A name that is fine does not end the template, is not too long for its buffer, is not followed
      by `$`, and by a backslash only if that protects another one with plain text behind it. */
  predicate FineName(t: string, length: nat)
    decreases |t|, 1
  {
    if t == [] then false
    else if IsNameChar(t[0]) then FineName(t[1..], length + 1)
    else
      && length < MAX_VAR_BUF && t[0] != '$'
      && if t[0] == '\\' then |t| >= 2 && t[1] == '\\' && Plain(t[2..]) else Fine(t[1..])
  }

  // ----- Fine templates are read as promised

  lemma {:induction false} PlainIsVerbatim(t: string)
    requires Plain(t)
    ensures Meant(t) == Verbatim(t)
  {
    if t != [] {
      assert t[0] in t && forall c :: c in t[1..] ==> c in t;
      PlainIsVerbatim(t[1..]);
    }
  }

  lemma {:induction false} FineIsMeant(t: string)
    requires Fine(t)
    ensures Pieces(t) == Meant(t)
    decreases |t|, 0
  {
    if t != [] {
      if t[0] == '\\' {
        ProtectedFirst(t);
        if |t| >= 2 {
          PlainIsVerbatim(t[2..]);
        }
      } else if t[0] == '$' {
        FineNameIsMeant(t[1..], []);
      } else {
        FineIsMeant(t[1..]);
      }
    }
  }

  /** The code at its first backslash. */
  lemma ProtectedFirst(t: string)
    requires t != [] && t[0] == '\\'
    ensures |t| == 1 ==> Pieces(t) == []
    ensures |t| >= 2 ==> Pieces(t) == [Lit(t[1])] + Verbatim(t[2..])
  {
    if |t| >= 2 {
      assert t[1..][1..] == t[2..];
    }
  }

  /** Where a name ends. */
  lemma NameEnds(t: string, name: string)
    requires t != [] && !IsNameChar(t[0])
    ensures AfterDollar(t, name) == [Ref(name), Lit(t[0])] + Pieces(t[1..])
    ensures MeantName(t, name) == [Ref(name)] + Meant(t)
  {
  }

  /** Where it goes on. */
  lemma NameGoesOn(t: string, name: string)
    requires t != [] && IsNameChar(t[0])
    ensures MeantName(t, name) == MeantName(t[1..], name + [t[0]])
    ensures AfterDollar(t, name) ==
            AfterDollar(t[1..], if |name| < MAX_VAR_BUF - 1 then name + [t[0]] else name)
  {
  }

  lemma {:induction false} FineNameIsMeant(t: string, name: string)
    requires FineName(t, |name|)
    ensures AfterDollar(t, name) == MeantName(t, name)
    decreases |t|, 1
  {
    if IsNameChar(t[0]) {
      FineNameShort(t[1..], |name| + 1);
      NameGoesOn(t, name);
      FineNameIsMeant(t[1..], name + [t[0]]);
    } else {
      NameEnds(t, name);
      if t[0] == '\\' {
        TwoBackslashes(t);
      } else {
        FineIsMeant(t[1..]);
      }
      hide Meant, Pieces;
      Assoc([Ref(name)], [Lit(t[0])], Pieces(t[1..]));
    }
  }

  lemma TwoBackslashes(t: string)
    requires |t| >= 2 && t[0] == t[1] == '\\' && Plain(t[2..])
    ensures Meant(t) == [Lit(t[0])] + Pieces(t[1..])
  {
    ProtectedFirst(t[1..]);
    PlainIsVerbatim(t[2..]);
    assert t[1..][1..] == t[2..] && (|t| > 2 ==> t[1..][2..] == t[2..][1..]);
  }

  lemma {:induction false} FineNameShort(t: string, length: nat)
    requires FineName(t, length)
    ensures length < MAX_VAR_BUF
    decreases |t|
  {
    if IsNameChar(t[0]) {
      FineNameShort(t[1..], length + 1);
    }
  }

  // ----- Others are not

  /** The text for the word "a" everywhere. */
  function Sample(ps: seq<Piece>): (s: string)
    ensures |s| == |ps|
  {
    if ps == [] then [] else [if ps[0].Lit? then ps[0].c else 'a'] + Sample(ps[1..])
  }

  lemma SampleFirst(p: Piece, ps: seq<Piece>)
    ensures Sample([p] + ps) == [if p.Lit? then p.c else 'a'] + Sample(ps)
  {
    assert ([p] + ps)[1..] == ps;
  }

  ghost predicate HasLongName(ps: seq<Piece>) {
    exists n :: n in Refs(ps) && |n| >= MAX_VAR_BUF
  }

  /** What the code makes of a template can be told from what was meant by the text for the word "a",
      or by a name that the code cannot refer to. */
  ghost predicate Differ(code: seq<Piece>, meant: seq<Piece>) {
    Sample(code) != Sample(meant) || HasLongName(meant)
  }

  lemma RefsFirst(p: Piece, ps: seq<Piece>)
    ensures Refs([p] + ps) == (if p.Ref? then [p.name] else []) + Refs(ps)
  {
    assert ([p] + ps)[1..] == ps;
  }

  /** A difference stays one behind any first pieces of the same sort. */
  lemma DifferBehind(p: Piece, q: Piece, code: seq<Piece>, meant: seq<Piece>)
    requires Differ(code, meant)
    ensures Differ([p] + code, [q] + meant)
  {
    SampleFirst(p, code);
    SampleFirst(q, meant);
    RefsFirst(q, meant);
    assert ([if p.Lit? then p.c else 'a'] + Sample(code))[1..] == Sample(code);
    assert ([if q.Lit? then q.c else 'a'] + Sample(meant))[1..] == Sample(meant);
  }

  /** So does one at once. */
  lemma DifferFirst(c: char, q: Piece, code: seq<Piece>, meant: seq<Piece>)
    requires c != if q.Lit? then q.c else 'a'
    ensures Differ([Lit(c)] + code, [q] + meant)
  {
    SampleFirst(Lit(c), code);
    SampleFirst(q, meant);
    assert Sample([Lit(c)] + code)[0] == c && Sample([q] + meant)[0] != c;
  }

  lemma DifferInLength(code: seq<Piece>, meant: seq<Piece>)
    requires |code| != |meant|
    ensures Differ(code, meant)
  {
  }

  /** No more pieces are meant than there are characters. */
  lemma {:induction false} MeantBound(t: string)
    ensures |Meant(t)| <= |t|
    decreases |t|, 0
  {
    if t != [] {
      if t[0] == '\\' {
        if |t| > 1 {
          MeantBound(t[2..]);
        }
      } else if t[0] == '$' {
        MeantNameBound(t[1..], []);
      } else {
        MeantBound(t[1..]);
      }
    }
  }

  lemma {:induction false} MeantNameBound(t: string, name: string)
    ensures |MeantName(t, name)| <= |t| + 1
    decreases |t|, 1
  {
    if t != [] && IsNameChar(t[0]) {
      MeantNameBound(t[1..], name + [t[0]]);
    } else {
      MeantBound(t);
    }
  }

  lemma {:induction false} MeantNameIsRef(t: string, name: string)
    ensures var ps := MeantName(t, name); ps != [] && ps[0].Ref? && ps == [ps[0]] + ps[1..]
    decreases |t|
  {
    if t != [] && IsNameChar(t[0]) {
      MeantNameIsRef(t[1..], name + [t[0]]);
    }
  }

  lemma {:induction false} NotPlainDiffers(t: string)
    requires !Plain(t)
    ensures Differ(Verbatim(t), Meant(t))
  {
    hide Differ;
    var rest := t[1..];
    if t[0] == '\\' {
      if |t| > 1 {
        MeantBound(t[2..]);
      }
      DifferInLength(Verbatim(t), Meant(t));
    } else if t[0] == '$' {
      MeantNameIsRef(rest, []);
      DifferFirst('$', MeantName(rest, [])[0], Verbatim(rest), MeantName(rest, [])[1..]);
    } else {
      assert t == [t[0]] + rest;
      NotPlainDiffers(rest);
      DifferBehind(Lit(t[0]), Lit(t[0]), Verbatim(rest), Meant(rest));
    }
  }

  lemma {:induction false} NotFineDiffers(t: string)
    requires !Fine(t)
    ensures Differ(Pieces(t), Meant(t))
    decreases |t|, 0
  {
    hide Differ;
    if t[0] == '\\' {
      ProtectedFirst(t);
      NotPlainDiffers(t[2..]);
      DifferBehind(Lit(t[1]), Lit(t[1]), Verbatim(t[2..]), Meant(t[2..]));
    } else if t[0] == '$' {
      NameNotFineDiffers(t[1..], [], []);
    } else {
      NotFineDiffers(t[1..]);
      DifferBehind(Lit(t[0]), Lit(t[0]), Pieces(t[1..]), Meant(t[1..]));
    }
  }

  /** A name of which the code has kept `kept`, and which is really `name`. */
  lemma {:induction false} NameNotFineDiffers(t: string, kept: string, name: string)
    requires !FineName(t, |name|)
    ensures Differ(AfterDollar(t, kept), MeantName(t, name))
    decreases |t|, 1
  {
    hide Differ;
    if t == [] {
      assert Meant([]) == [];
      DifferInLength([], [Ref(name)] + []);
    } else if IsNameChar(t[0]) {
      NameGoesOn(t, kept);
      NameGoesOn(t, name);
      NameNotFineDiffers(t[1..], if |kept| < MAX_VAR_BUF - 1 then kept + [t[0]] else kept, name + [t[0]]);
    } else {
      NameEnds(t, kept);
      NameEnds(t, name);
      var code := [Lit(t[0])] + Pieces(t[1..]);
      assert [Ref(kept), Lit(t[0])] + Pieces(t[1..]) == [Ref(kept)] + code;
      if |name| >= MAX_VAR_BUF {
        LongNameDiffers([Ref(kept)] + code, name, Meant(t));
      } else {
        EndDiffers(t);
        DifferBehind(Ref(kept), Ref(name), code, Meant(t));
      }
    }
  }

  lemma LongNameDiffers(code: seq<Piece>, name: string, meant: seq<Piece>)
    requires |name| >= MAX_VAR_BUF
    ensures Differ(code, [Ref(name)] + meant)
  {
    RefsFirst(Ref(name), meant);
    assert name in Refs([Ref(name)] + meant);
  }

  /** What follows a name that is fine up to its end. */
  lemma {:induction false} EndDiffers(t: string)
    requires t != [] && !IsNameChar(t[0]) && !FineName(t, 0)
    ensures Differ([Lit(t[0])] + Pieces(t[1..]), Meant(t))
    decreases |t|, 0
  {
    hide Differ;
    var rest := t[1..];
    if t[0] == '$' {
      MeantNameIsRef(rest, []);
      DifferFirst('$', MeantName(rest, [])[0], Pieces(rest), MeantName(rest, [])[1..]);
    } else if t[0] != '\\' {
      NotFineDiffers(rest);
      DifferBehind(Lit(t[0]), Lit(t[0]), Pieces(rest), Meant(rest));
    } else if |t| == 1 {
      DifferInLength([Lit(t[0])] + Pieces(rest), []);
    } else if t[1] != '\\' {
      DifferFirst('\\', Lit(t[1]), Pieces(rest), Meant(t[2..]));
    } else {
      ProtectedFirst(rest);
      assert rest[1..] == t[2..] && (|t| > 2 ==> rest[2..] == t[2..][1..]);
      NotPlainDiffers(t[2..]);
      DifferBehind(Lit('\\'), Lit('\\'), Verbatim(t[2..]), Meant(t[2..]));
    }
  }

  /** A template is read as promised if and only if it is fine. */
  lemma {:induction false} ReadAsMeant(t: string)
    ensures Pieces(t) == Meant(t) <==> Fine(t)
  {
    hide Fine;
    if Fine(t) {
      FineIsMeant(t);
    } else {
      NotFineDiffers(t);
      NamesFit(t, []);
    }
  }

  /** No name that the code refers to is longer than its buffer. */
  lemma {:induction false} NamesFit(t: string, name: string)
    ensures !HasLongName(Pieces(t)) && (|name| < MAX_VAR_BUF ==> !HasLongName(AfterDollar(t, name)))
    decreases |t|
  {
    hide HasLongName;
    if t == [] {
      NoneLong();
    } else {
      NamesFit(t[1..], []);
      NamesFit(t[1..], name);
      NamesFit(t[1..], name + [t[0]]);
      VerbatimHasNoRefs(t[1..]);
      NoRefsNoneLong(Verbatim(t[1..]));
      LongFirst(Lit(t[0]), Pieces(t[1..]));
      LongFirst(Ref(name), [Lit(t[0])] + Pieces(t[1..]));
      assert [Ref(name), Lit(t[0])] + Pieces(t[1..]) == [Ref(name)] + ([Lit(t[0])] + Pieces(t[1..]));
    }
  }

  lemma NoneLong()
    ensures !HasLongName([])
  {
  }

  lemma NoRefsNoneLong(ps: seq<Piece>)
    requires Refs(ps) == []
    ensures !HasLongName(ps)
  {
  }

  lemma LongFirst(p: Piece, ps: seq<Piece>)
    ensures HasLongName([p] + ps) <==> HasLongName(ps) || (p.Ref? && |p.name| >= MAX_VAR_BUF)
  {
    RefsFirst(p, ps);
    assert p.Ref? ==> p.name in Refs([p] + ps);
    assert forall n :: n in Refs(ps) ==> n in Refs([p] + ps);
  }

  lemma {:induction false} VerbatimHasNoRefs(t: string)
    ensures Refs(Verbatim(t)) == []
  {
    if t != [] {
      VerbatimHasNoRefs(t[1..]);
      RefsFirst(Lit(t[0]), Verbatim(t[1..]));
    }
  }

  // ----- What is sent

  /** Whatever the dictionaries, the random numbers and the size of the buffer: the same text is sent,
      the same words are drawn, or the process dies all the same. */
  ghost predicate SentAsMeant(t: string) {
    forall pool: Pool, rnd: nat -> nat, k: nat, max: nat :: UsablePool(pool) ==>
      Build(Pieces(t), pool, rnd, k, max, []) == Build(Meant(t), pool, rnd, k, max, [])
  }

  /** Dictionaries that have nothing but the word "a". */
  ghost predicate OnlyA(pool: Pool) {
    forall n :: n in pool ==> pool[n].Unique? && pool[n].templ == "a"
  }

  function PoolOfA(names: seq<string>): Pool {
    map n | n in names :: Unique("a", 0)
  }

  lemma WordA(id: nat, rnd: nat)
    ensures Usable(Unique("a", id)) && Next(Unique("a", id), rnd) == ("a", Unique("a", id + 1))
  {
    assert "a"[1..] == "";
    assert Prefix("a") == "a";
  }

  lemma UsableA(pool: Pool)
    requires OnlyA(pool)
    ensures UsablePool(pool)
  {
    forall n | n in pool ensures Usable(pool[n]) {
      WordA(pool[n].id, 0);
    }
  }

  lemma {:induction false} SampleBuilt(
      ps: seq<Piece>, pool: Pool, rnd: nat -> nat, k: nat, max: nat, out: string)
    requires OnlyA(pool) && UsablePool(pool) && |out| + 2 * |ps| + 4 < max
    requires forall n :: n in Refs(ps) ==> n in pool
    ensures var b := Build(ps, pool, rnd, k, max, out); b.Expansion? && b.text == out + Sample(ps)
    decreases |ps|
  {
    hide Next, Usable, Build, UsablePool;
    if ps == [] {
      BuildNothing(pool, rnd, k, max, out);
    } else {
      assert ps == [ps[0]] + ps[1..];
      RefsFirst(ps[0], ps[1..]);
      SampleFirst(ps[0], ps[1..]);
      if ps[0].Lit? {
        BuildLit(ps, pool, rnd, k, max, out);
        SampleBuilt(ps[1..], pool, rnd, k, max, out + [ps[0].c]);
        Assoc(out, [ps[0].c], Sample(ps[1..]));
      } else {
        var d := pool[ps[0].name];
        BuildRef(ps, pool, rnd, k, max, out);
        WordA(d.id, rnd(k));
        EscapeA();
        var pool' := pool[ps[0].name := Unique("a", d.id + 1)];
        UsableA(pool');
        SampleBuilt(ps[1..], pool', rnd, k + 1, max, out + "a");
        Assoc(out, "a", Sample(ps[1..]));
      }
    }
  }

  lemma EscapeA()
    ensures Escape("a") == "a"
  {
    assert "a"[1..] == "";
  }

  lemma MissingBuilt(ps: seq<Piece>, pool: Pool, rnd: nat -> nat, k: nat, max: nat, name: string)
    requires UsablePool(pool) && name in Refs(ps) && name !in pool
    ensures Build(ps, pool, rnd, k, max, []) == Missing
  {
    BuildIsDrawAndRender(ps, pool, rnd, k, max, []);
    DrawFails(pool, Refs(ps), rnd, k);
  }

  lemma {:induction false} DifferIsSeen(code: seq<Piece>, meant: seq<Piece>, rnd: nat -> nat)
    returns (pool: Pool, max: nat)
    requires Differ(code, meant) && !HasLongName(code)
    ensures UsablePool(pool)
    ensures Build(code, pool, rnd, 0, max, []) != Build(meant, pool, rnd, 0, max, [])
  {
    hide Build, UsablePool;
    max := 2 * |code| + 2 * |meant| + 5;
    pool := PoolOfA(Refs(code));
    if HasLongName(meant) {
      var n :| n in Refs(meant) && |n| >= MAX_VAR_BUF;
      UsableA(pool);
      SampleBuilt(code, pool, rnd, 0, max, []);
      MissingBuilt(meant, pool, rnd, 0, max, n);
    } else {
      pool := PoolOfA(Refs(code) + Refs(meant));
      UsableA(pool);
      SampleBuilt(code, pool, rnd, 0, max, []);
      SampleBuilt(meant, pool, rnd, 0, max, []);
      assert [] + Sample(code) == Sample(code) && [] + Sample(meant) == Sample(meant);
    }
  }

  /** What is sent is as promised, for all dictionaries and all that can happen, if and only if the
      template is fine. */
  lemma {:induction false} SentAsMeantIfFine(t: string)
    ensures SentAsMeant(t) <==> Fine(t)
  {
    hide Fine, Build, UsablePool, Differ, HasLongName;
    if Fine(t) {
      FineIsMeant(t);
    } else {
      NotFineDiffers(t);
      NamesFit(t, []);
      var rnd := (k: nat) => 0;
      var pool, max := DifferIsSeen(Pieces(t), Meant(t), rnd);
    }
  }

  // ----- Instances

  /** A name at the end of a template: nothing is drawn, and the query is sent without the word. */
  lemma LastNameDropped(pool: Pool, rnd: nat -> nat, k: nat, max: nat)
    requires UsablePool(pool) && max > 2
    ensures Meant("=$id") == [Lit('='), Ref("id")]
    ensures Build(Pieces("=$id"), pool, rnd, k, max, []) == Expansion("=", pool, k)
  {
    hide UsablePool, Build;
    assert "=$id"[1..] == "$id" && "$id"[1..] == "id";
    NameId();
    assert Pieces("$id") == [] && Meant("$id") == [Ref("id")];
    assert Pieces("=$id") == [Lit('=')] && Meant("=$id") == [Lit('=')] + [Ref("id")];
    BuildLit([Lit('=')], pool, rnd, k, max, []);
    assert [Lit('=')][1..] == [] && [] + ['='] == "=";
    BuildNothing(pool, rnd, k, max, "=");
  }

  lemma NameId()
    ensures AfterDollar("id", []) == [] && MeantName("id", []) == [Ref("id")]
  {
    assert "id"[1..] == "d" && "d"[1..] == "" && [] + ['i'] == "i" && "i" + ['d'] == "id";
    NameGoesOn("id", []);
    NameGoesOn("d", "i");
  }

  /** A name of one letter, ended by `c`. */
  lemma OneLetterName(name: char, c: char, rest: string)
    requires IsNameChar(name) && !IsNameChar(c)
    ensures AfterDollar([name, c] + rest, []) == [Ref([name]), Lit(c)] + Pieces(rest)
    ensures MeantName([name, c] + rest, []) == [Ref([name])] + Meant([c] + rest)
  {
    var t := [name, c] + rest;
    assert t[1..] == [c] + rest && ([c] + rest)[1..] == rest && [] + [name] == [name];
    NameGoesOn(t, []);
    NameEnds([c] + rest, [name]);
  }

  /** Two names side by side: the second is sent as it stands. */
  lemma SecondNameKept()
    ensures Pieces("$a$b ") == [Ref("a"), Lit('$'), Lit('b'), Lit(' ')]
    ensures Meant("$a$b ") == [Ref("a"), Ref("b"), Lit(' ')]
  {
    assert "$a$b "[1..] == ['a', '$'] + "b " && ['$'] + "b " == "$b ";
    assert "$b "[1..] == ['b', ' '] + "" && [' '] + "" == " ";
    OneLetterName('a', '$', "b ");
    OneLetterName('b', ' ', "");
    assert "b "[1..] == " " && " "[1..] == "";
    assert Pieces("b ") == [Lit('b')] + Pieces(" ") == [Lit('b'), Lit(' ')];
    assert Meant("$b ") == [Ref("b")] + Meant(" ") == [Ref("b"), Lit(' ')];
  }

  /** A protected character: no name behind it is expanded. */
  lemma NamesBehindBackslash()
    ensures Pieces("\\x$a ") == [Lit('x'), Lit('$'), Lit('a'), Lit(' ')]
    ensures Meant("\\x$a ") == [Lit('x'), Ref("a"), Lit(' ')]
  {
    ProtectedFirst("\\x$a ");
    assert "\\x$a "[2..] == "$a " && "$a "[1..] == ['a', ' '] + "" && [' '] + "" == " " && " "[1..] == "";
    OneLetterName('a', ' ', "");
    assert "a "[1..] == " ";
    assert Verbatim("a ") == [Lit('a')] + Verbatim(" ") == [Lit('a'), Lit(' ')];
    assert Verbatim("$a ") == [Lit('$')] + Verbatim("a ");
    assert Meant("$a ") == [Ref("a")] + Meant(" ") == [Ref("a"), Lit(' ')];
  }
}
