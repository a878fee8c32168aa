/** The word sources of query templates. */
module Dictionaries {
  import opened CStrings

  const MAX_UNIQUE := 512
  const MAX_FILE_LINE := 512

  // ----- Drawing words

  /** The state of a dictionary. */
  datatype Dict =
    | Sequential(words: seq<string>, cur: nat)
    | Random(words: seq<string>)
    | Unique(templ: string, id: nat)

  /** A dictionary that `next_word` can be asked for a word: a list with words in it, or a template
      whose printf conversion is a decimal one. */
  predicate Usable(d: Dict) {
    match d
    case Sequential(words, cur) => cur < |words|
    case Random(words) => words != []
    case Unique(templ, _) => DecimalTemplate(templ)
  }

  /** `next_word`; `rnd` is what `rand()` returns if it is called. */
  function Next(d: Dict, rnd: nat): (string, Dict)
    requires Usable(d)
  {
    match d
    case Sequential(words, cur) => (words[cur], Sequential(words, if cur + 1 == |words| then 0 else cur + 1))
    case Random(words) => (words[rnd % |words|], d)
    case Unique(templ, id) => (Printed(templ, id), Unique(templ, id + 1))
  }

  lemma NextUsable(d: Dict, rnd: nat)
    requires Usable(d)
    ensures Usable(Next(d, rnd).1)
  {
  }

  datatype Kind = SeqKind | RandKind | UniqueKind

  class Dictionary {
    const kind: Kind
    var words: seq<string>
    var curWordInd: nat
    var id: nat
    var templ: string

    function View(): Dict
      reads this
    {
      match kind
      case SeqKind => Sequential(words, curWordInd)
      case RandKind => Random(words)
      case UniqueKind => Unique(templ, id)
    }

    constructor (kind: Kind)
      ensures this.kind == kind && words == [] && curWordInd == 0 && id == 0 && templ == "%d"
    {
      this.kind, words, curWordInd, id, templ := kind, [], 0, 0, "%d";
    }

    method NextWord(rnd: nat) returns (word: string)
      requires Usable(View())
      modifies this
      ensures word == Next(old(View()), rnd).0 && View() == Next(old(View()), rnd).1
    {
      match kind {
        case SeqKind =>
          word := words[curWordInd];
          curWordInd := curWordInd + 1;
          if curWordInd == |words| {
            curWordInd := 0;
          }
        case RandKind =>
          word := words[rnd % |words|];
        case UniqueKind =>
          word := Printed(templ, id);
          id := id + 1;
      }
    }

    /** `set_template`: the source text with all but one `%` field taken out. */
    method SetTemplate(source: string)
      modifies this
      ensures templ == Fix(source, false, false)
      ensures words == old(words) && curWordInd == old(curWordInd) && id == old(id)
    {
      templ := source;
      FixTemplate();
    }

    method FixTemplate()
      modifies this
      ensures templ == Fix(old(templ), false, false)
      ensures words == old(words) && curWordInd == old(curWordInd) && id == old(id)
    {
      var tmp := templ;
      templ := "";
      var sawField, lastPercent := false, false;
      var i := 0;
      while i < |tmp|
        invariant 0 <= i <= |tmp|
        invariant templ + Fix(tmp[i..], sawField, lastPercent) == Fix(tmp, false, false)
        invariant words == old(words) && curWordInd == old(curWordInd) && id == old(id)
      {
        var c := tmp[i];
        assert tmp[i..][1..] == tmp[i + 1..];
        i := i + 1;
        if c == '%' {
          lastPercent := true;
          continue;
        }
        if lastPercent {
          if sawField {
            break;
          }
          sawField := true;
          templ := templ + "%";
        }
        templ := templ + [c];
        lastPercent := false;
      }
    }

    /** `load_file` on a file holding `text`: every `step`-th line, cut at the delimiter. */
    method LoadFile(text: string, fileSizeEquiv: int, delim: char)
      requires ShortLines(text)
      modifies this
      ensures words == old(words) + Sampled(text, Step(|text|, fileSizeEquiv), 1, delim)
      ensures curWordInd == old(curWordInd) && id == old(id) && templ == old(templ)
    {
      var step := 1;
      if fileSizeEquiv != 0 {
        step := TruncatedQuotient(|text|, fileSizeEquiv);
      }
      if step == 0 {
        step := step + 1;
      }
      ReadLines(text, step, delim);
    }

    /** The loop of `load_file` over the lines of the file. */
    method ReadLines(text: string, step: int, delim: char)
      requires ShortLines(text) && step != 0
      modifies this
      ensures words == old(words) + Sampled(text, step, 1, delim)
      ensures curWordInd == old(curWordInd) && id == old(id) && templ == old(templ)
    {
      hide UpTo, Cut, Sampled, ShortLines, Kept;
      var rest, line := text, 1;
      ghost var taken: seq<string> := [];
      while true
        invariant line >= 1 && ShortLines(rest)
        invariant words == old(words) + taken
        invariant taken + Sampled(rest, step, line, delim) == Sampled(text, step, 1, delim)
        invariant curWordInd == old(curWordInd) && id == old(id) && templ == old(templ)
        decreases |rest|
      {
        var buf := UpTo(rest, '\n');
        NextLine(rest, step, line, delim);
        if |buf| == |rest| {
          break;     // end of file: what is left has no newline and is dropped
        }
        if line % step == 0 {
          words := words + [Cut(buf, delim)];
        }
        KeptIs(buf, step, line, delim);
        taken := taken + Kept(buf, step, line, delim);
        rest, line := rest[|buf| + 1..], line + 1;
      }
    }
  }

  lemma KeptIs(buf: string, step: int, line: nat, delim: char)
    requires step != 0
    ensures Kept(buf, step, line, delim) == if line % step == 0 then [Cut(buf, delim)] else []
  {
  }

  // ----- Drawing in turn

  lemma {:induction false} SequentialDraws(words: seq<string>, cur: nat, rnd: nat)
    requires cur < |words|
    ensures Next(Sequential(words, cur), rnd) == (words[cur], Sequential(words, (cur + 1) % |words|))
  {
    if cur + 1 < |words| {
      assert (cur + 1) % |words| == cur + 1;
    }
  }

  /** How often a sequence of `k` draws in turn from `n` words hits word `i`. */
  function Hits(k: nat, n: nat, i: nat): nat
    requires n > 0
  {
    if k == 0 then 0 else Hits(k - 1, n, i) + (if (k - 1) % n == i then 1 else 0)
  }

  /** Fairness: after `k` draws each of the `n` words has been drawn `k / n` times, or once more. */
  lemma {:induction false} DrawsAreFair(k: nat, n: nat, i: nat)
    requires i < n
    ensures Hits(k, n, i) == k / n + (if i < k % n then 1 else 0)
  {
    if k > 0 {
      DrawsAreFair(k - 1, n, i);
      OneMore(k - 1, n);
    } else {
      assert 0 / n == 0 && 0 % n == 0;
    }
  }

  /** The same wherever the drawing starts: `k` draws hit each word `k / n` times, rounded down or up. */
  lemma {:induction false} FairFromAnywhere(cur: nat, k: nat, n: nat, i: nat)
    requires i < n
    ensures var hits := Hits(cur + k, n, i) - Hits(cur, n, i); hits == k / n || (k % n != 0 && hits == k / n + 1)
  {
    hide Hits;
    DivMod(cur, n);
    DivMod(k, n);
    HitsBetween(cur, k, n, i, cur / n, cur % n, k / n, k % n);
  }

  lemma {:induction false} HitsBetween(cur: nat, k: nat, n: nat, i: nat, qa: nat, ra: nat, qb: nat, rb: nat)
    requires i < n && ra < n && rb < n && cur == qa * n + ra && k == qb * n + rb
    ensures var hits := Hits(cur + k, n, i) - Hits(cur, n, i); hits == qb || (rb != 0 && hits == qb + 1)
  {
    hide Hits;
    HitsAre(cur, n, i, qa, ra);
    Distribute(qa, qb, n);
    Distribute(qa + qb, 1, n);
    if ra + rb < n {
      HitsAre(cur + k, n, i, qa + qb, ra + rb);
    } else {
      HitsAre(cur + k, n, i, qa + qb + 1, ra + rb - n);
    }
  }

  lemma {:induction false} HitsAre(k: nat, n: nat, i: nat, q: nat, r: nat)
    requires i < n && r < n && k == q * n + r
    ensures Hits(k, n, i) == q + (if i < r then 1 else 0)
  {
    hide Hits;
    DrawsAreFair(k, n, i);
    DivModUnique(k, n, q, r);
  }

  lemma {:induction false} OneMore(k: nat, n: nat)
    requires n > 0
    ensures if k % n + 1 < n then (k + 1) / n == k / n && (k + 1) % n == k % n + 1
            else (k + 1) / n == k / n + 1 && (k + 1) % n == 0
  {
    DivMod(k, n);
    OneMoreThan(k, n, k / n, k % n);
  }

  lemma {:induction false} OneMoreThan(k: nat, n: nat, q: nat, r: nat)
    requires n > 0 && k == q * n + r && r < n
    ensures if r + 1 < n then (k + 1) / n == q && (k + 1) % n == r + 1
            else (k + 1) / n == q + 1 && (k + 1) % n == 0
  {
    if r + 1 < n {
      DivModUnique(k + 1, n, q, r + 1);
    } else {
      Distribute(q, 1, n);
      DivModUnique(k + 1, n, q + 1, 0);
    }
  }

  // ----- Templates of unique words

  /** What `fix_template` makes of the rest of a template: `%` signs are dropped, and one is put
      back in front of the first other character after them; the second time that would happen,
      the rest is cut off. */
  function Fix(s: string, sawField: bool, lastPercent: bool): string {
    if s == [] then []
    else if s[0] == '%' then Fix(s[1..], sawField, true)
    else if lastPercent && sawField then []
    else if lastPercent then ['%', s[0]] + Fix(s[1..], true, false)
    else [s[0]] + Fix(s[1..], sawField, false)
  }

  /** At most one `%`, and not at the end. */
  ghost predicate OneField(s: string) {
    Count(s, '%') <= 1 && (s != [] ==> s[|s| - 1] != '%')
  }

  lemma {:induction false} FixShape(s: string, sawField: bool, lastPercent: bool)
    ensures var r := Fix(s, sawField, lastPercent);
            && Count(r, '%') <= (if sawField then 0 else 1)
            && (r != [] ==> r[|r| - 1] != '%')
            && |r| <= |s| + (if lastPercent then 1 else 0)
  {
    if s != [] {
      if s[0] == '%' {
        FixShape(s[1..], sawField, true);
      } else if lastPercent && !sawField {
        FixShape(s[1..], true, false);
        var r := Fix(s[1..], true, false);
        CountConcat(['%', s[0]], r, '%');
        assert Count(['%', s[0]], '%') == 1 + Count([s[0]], '%');
      } else if !lastPercent {
        FixShape(s[1..], sawField, false);
        CountConcat([s[0]], Fix(s[1..], sawField, false), '%');
      }
    }
  }

  lemma {:induction false} FixKeepsOneField(s: string, sawField: bool, lastPercent: bool)
    requires s != [] ==> s[|s| - 1] != '%'
    requires Count(s, '%') + (if sawField then 1 else 0) + (if lastPercent then 1 else 0) <= 1
    ensures Fix(s, sawField, lastPercent) == if lastPercent && s != [] then ['%'] + s else s
  {
    if s != [] {
      if s[0] == '%' {
        FixKeepsOneField(s[1..], sawField, true);
      } else if lastPercent {
        FixKeepsOneField(s[1..], true, false);
      } else {
        FixKeepsOneField(s[1..], sawField, false);
      }
    }
  }

  /** `fix_template` leaves at most one `%`, never at the end, never makes the text longer, and
      leaves a text alone exactly if it has that shape already; so fixing twice is fixing once. */
  lemma {:induction false} FixTemplateResult(s: string)
    ensures var r := Fix(s, false, false);
            && OneField(r) && |r| <= |s|
            && (r == s <==> OneField(s))
            && Fix(r, false, false) == r
  {
    FixShape(s, false, false);
    var r := Fix(s, false, false);
    FixKeepsOneField(r, false, false);
    if OneField(s) {
      FixKeepsOneField(s, false, false);
    }
  }

  /** Text without `%` is passed over. */
  lemma {:induction false} FixText(a: string, rest: string, sawField: bool)
    requires '%' !in a
    ensures Fix(a + rest, sawField, false) == a + Fix(rest, sawField, false)
  {
    if a == [] {
      assert a + rest == rest;
    } else {
      assert (a + rest)[1..] == a[1..] + rest && (a + rest)[0] == a[0];
      assert a[0] in a && forall c :: c in a[1..] ==> c in a;
      FixText(a[1..], rest, sawField);
    }
  }

  lemma {:induction false} FixPercents(j: nat, rest: string, sawField: bool, lastPercent: bool)
    requires j > 0
    ensures Fix(Repeat('%', j) + rest, sawField, lastPercent) == Fix(rest, sawField, true)
  {
    var s := Repeat('%', j) + rest;
    if j == 1 {
      assert s[1..] == rest;
    } else {
      assert s[1..] == Repeat('%', j - 1) + rest;
      FixPercents(j - 1, rest, sawField, true);
    }
  }

  /** What is left of a template: its text, one `%` for the first ones in a row, and the text behind
      them up to the next `%`. All else is cut off, and so are signs with nothing behind them. */
  lemma {:induction false} FixKeepsFirstField(a: string, j: nat, u: string, tail: string)
    requires '%' !in a && '%' !in u && j > 0 && (tail != [] ==> tail[0] == '%')
    ensures Fix(a, false, false) == a
    ensures u == [] && tail == [] ==> Fix(a + (Repeat('%', j) + (u + tail)), false, false) == a
    ensures u != [] ==> Fix(a + (Repeat('%', j) + (u + tail)), false, false) == a + "%" + u
  {
    FixText(a, [], false);
    assert a + [] == a;
    FixText(a, Repeat('%', j) + (u + tail), false);
    FixPercents(j, u + tail, false, false);
    if u == [] && tail == [] {
      assert u + tail == [];
    } else if u != [] {
      assert u[0] in u && forall c :: c in u[1..] ==> c in u;
      assert (u + tail)[1..] == u[1..] + tail && (u + tail)[0] == u[0];
      FixText(u[1..], tail, true);
      FixCutsOff(tail, false);
      assert Fix(u + tail, false, true) == ['%', u[0]] + (u[1..] + []);
      assert a + (['%', u[0]] + (u[1..] + [])) == a + "%" + u;
    }
  }

  lemma {:induction false} FixCutsOff(tail: string, lastPercent: bool)
    requires tail != [] ==> lastPercent || tail[0] == '%'
    ensures Fix(tail, true, lastPercent) == []
  {
    if tail != [] && tail[0] == '%' {
      FixCutsOff(tail[1..], true);
    }
  }

  /** The text around the field of a template. */
  function Prefix(templ: string): string {
    UpTo(templ, '%')
  }

  function Spec(templ: string): string {
    if |Prefix(templ)| < |templ| then templ[|Prefix(templ)| + 1..] else []
  }

  /** A template without a field, or with one that is `d` (or `i` or `u`, which print the same) after
      an optional field width (and the flag `0`, which the digits of the width then begin with). */
  predicate DecimalTemplate(templ: string) {
    |Prefix(templ)| == |templ| || HasDecimalField(templ)
  }

  predicate HasDecimalField(templ: string) {
    && |Prefix(templ)| < |templ|
    && var width := DigitPrefix(Spec(templ));
       |width| < |Spec(templ)| && Spec(templ)[|width|] in ['d', 'i', 'u'] && '%' !in Spec(templ)
  }

  /** `%d` with a field width: blanks, or zeros if the width is written with a leading zero. */
  function Padded(width: string, n: nat): string
    requires AllDigits(width)
  {
    Repeat(if width != [] && width[0] == '0' then '0' else ' ', Missing(width, n)) + Decimal(n)
  }

  function Formatted(templ: string, id: nat): string
    requires DecimalTemplate(templ)
  {
    if |Prefix(templ)| == |templ| then templ
    else
      var width := DigitPrefix(Spec(templ));
      Prefix(templ) + Padded(width, id) + Spec(templ)[|width| + 1..]
  }

  /** `snprintf` into the static buffer: what does not fit is cut off. */
  function Printed(templ: string, id: nat): (s: string)
    requires DecimalTemplate(templ)
    ensures |s| < MAX_UNIQUE
  {
    var s := Formatted(templ, id);
    if |s| < MAX_UNIQUE then s else s[..MAX_UNIQUE - 1]
  }

  /** The parts of a template with a field. */
  lemma {:induction false} FieldIs(a: string, width: string, c: char, b: string)
    requires '%' !in a && '%' !in b && AllDigits(width) && c in "diu"
    ensures var templ := a + "%" + width + [c] + b;
            && Prefix(templ) == a && |a| < |templ| && DecimalTemplate(templ)
            && DigitPrefix(Spec(templ)) == width && |width| < |Spec(templ)| && Spec(templ)[|width| + 1..] == b
  {
    hide UpTo;
    var templ, rest := a + "%" + width + [c] + b, width + ([c] + b);
    Assoc(a + "%" + width, [c], b);
    Assoc(a + "%", width, [c] + b);
    Assoc(a, "%", rest);
    UpToAppend(a, "%" + rest, '%');
    UpToAll(a, '%');
    assert Spec(templ) == rest;
    DigitsOf(width, [c] + b);
    assert rest[|width|] == c && rest[|width| + 1..] == b;
    assert forall i :: 0 <= i < |width| ==> width[i] != '%';
  }

  /** The word for an id: the text before the field, blanks (or zeros after a leading 0) up to the
      width, the id, the text behind the field, and of all this at most 511 characters. */
  lemma {:induction false} UniqueWordIs(a: string, width: string, c: char, b: string, id: nat, rnd: nat)
    requires '%' !in a && '%' !in b && AllDigits(width) && c in "diu"
    ensures var templ, number := a + "%" + width + [c] + b, Decimal(id);
            var missing := if Value(width) > |number| then Value(width) - |number| else 0;
            var word := a + Repeat(if width != [] && width[0] == '0' then '0' else ' ', missing) + number + b;
            && DecimalTemplate(templ)
            && Next(Unique(templ, id), rnd) ==
               (if |word| <= 511 then word else word[..511], Unique(templ, id + 1))
  {
    hide Decimal, Value, UpTo, Prefix, Spec, DigitPrefix, HasDecimalField, Repeat;
    FieldIs(a, width, c, b);
    Assoc(a, Repeat(if width != [] && width[0] == '0' then '0' else ' ', Missing(width, id)), Decimal(id));
  }

  /** Without a field the word is the template, cut in the same way. */
  lemma {:induction false} FixedWordIs(templ: string, id: nat, rnd: nat)
    requires '%' !in templ
    ensures DecimalTemplate(templ)
    ensures Next(Unique(templ, id), rnd) == (if |templ| <= 511 then templ else templ[..511], Unique(templ, id + 1))
  {
    UpToAll(templ, '%');
  }

  function LeadingBlanks(s: string): nat {
    if s != [] && s[0] == ' ' then 1 + LeadingBlanks(s[1..]) else 0
  }

  lemma {:induction false} LeadingBlanksOf(k: nat, s: string)
    requires s != [] && s[0] != ' '
    ensures LeadingBlanks(Repeat(' ', k) + s) == k
  {
    if k == 0 {
      assert Repeat(' ', k) + s == s;
    } else {
      assert (Repeat(' ', k) + s)[1..] == Repeat(' ', k - 1) + s;
      LeadingBlanksOf(k - 1, s);
    }
  }

  function Missing(width: string, n: nat): nat
    requires AllDigits(width)
  {
    if Value(width) > |Decimal(n)| then Value(width) - |Decimal(n)| else 0
  }

  lemma {:induction false} PaddedInjective(width: string, m: nat, n: nat)
    requires AllDigits(width) && Padded(width, m) == Padded(width, n)
    ensures m == n
  {
    hide Decimal, Value;
    var a, b, ka, kb := Decimal(m), Decimal(n), Missing(width, m), Missing(width, n);
    if width != [] && width[0] == '0' {
      ValueIgnoresLeadingZeros(ka, a);
      ValueIgnoresLeadingZeros(kb, b);
    } else {
      assert IsDigit(a[0]) && IsDigit(b[0]);
      LeadingBlanksOf(ka, a);
      LeadingBlanksOf(kb, b);
      assert (Repeat(' ', ka) + a)[ka..] == a && (Repeat(' ', kb) + b)[kb..] == b;
    }
  }

  /** Two words of a unique dictionary that fit the buffer are equal exactly if the template has no
      field or they have the same id. */
  lemma {:induction false} UniqueWordsDistinct(templ: string, m: nat, n: nat)
    requires DecimalTemplate(templ)
    requires |Formatted(templ, m)| < MAX_UNIQUE && |Formatted(templ, n)| < MAX_UNIQUE
    ensures Printed(templ, m) == Printed(templ, n) <==> m == n || '%' !in templ
  {
    if |Prefix(templ)| < |templ| {
      assert templ[|Prefix(templ)|] == '%';
      if Formatted(templ, m) == Formatted(templ, n) {
        var width := DigitPrefix(Spec(templ));
        var a, b, tail := Padded(width, m), Padded(width, n), Spec(templ)[|width| + 1..];
        var s := Formatted(templ, m);
        assert s == Prefix(templ) + a + tail == Prefix(templ) + b + tail;
        assert |a| == |b|;
        assert s[|Prefix(templ)|..|Prefix(templ)| + |a|] == a;
        assert s[|Prefix(templ)|..|Prefix(templ)| + |b|] == b;
        PaddedInjective(width, m, n);
      }
    }
  }

  // ----- Sampling a file

  lemma {:induction false} NextLine(text: string, step: int, line: nat, delim: char)
    requires step != 0 && ShortLines(text)
    ensures var buf := UpTo(text, '\n');
            && (|buf| == |text| ==> Sampled(text, step, line, delim) == [])
            && (|buf| < |text| ==>
                  && ShortLines(text[|buf| + 1..])
                  && Sampled(text, step, line, delim) ==
                     Kept(buf, step, line, delim) + Sampled(text[|buf| + 1..], step, line + 1, delim))
  {
    hide UpTo, Kept;
  }

  /** Every line, and what is left behind the last newline, fits the line buffer. */
  predicate ShortLines(text: string)
    decreases |text|
  {
    var line := UpTo(text, '\n');
    |line| < MAX_FILE_LINE && (|line| == |text| || ShortLines(text[|line| + 1..]))
  }

  /** C division. */
  function TruncatedQuotient(a: nat, b: int): int
    requires b != 0
  {
    if b > 0 then a / b else 0 - a / (0 - b)
  }

  function Step(size: nat, fileSizeEquiv: int): (step: int)
    ensures step != 0
  {
    var step := if fileSizeEquiv != 0 then TruncatedQuotient(size, fileSizeEquiv) else 1;
    if step == 0 then 1 else step
  }

  function Kept(buf: string, step: int, line: nat, delim: char): seq<string>
    requires step != 0
  {
    if line % step == 0 then [Cut(buf, delim)] else []
  }

  /** The words taken from `text` when its first line has number `line`. */
  function Sampled(text: string, step: int, line: nat, delim: char): seq<string>
    requires step != 0
    decreases |text|
  {
    var buf := UpTo(text, '\n');
    if |buf| == |text| then []
    else
      Kept(buf, step, line, delim) + Sampled(text[|buf| + 1..], step, line + 1, delim)
  }

  /** The newline-terminated lines of a file. */
  function Lines(text: string): (ls: seq<string>)
    ensures |ls| <= |text|
    decreases |text|
  {
    var buf := UpTo(text, '\n');
    if |buf| == |text| then [] else [buf] + Lines(text[|buf| + 1..])
  }

  function Cut(line: string, delim: char): string {
    UpTo(UpTo(line, NUL), delim)
  }

  /** The lines whose number, counted from `line`, is a multiple of `step`. */
  function Multiples(ls: seq<string>, step: int, line: nat): seq<string>
    requires step != 0
  {
    if ls == [] then [] else (if line % step == 0 then [ls[0]] else []) + Multiples(ls[1..], step, line + 1)
  }

  lemma {:induction false} MultiplesSnoc(ls: seq<string>, l: string, step: int, line: nat)
    requires step != 0
    ensures Multiples(ls + [l], step, line) ==
            Multiples(ls, step, line) + (if (line + |ls|) % step == 0 then [l] else [])
  {
    if ls == [] {
      assert ls + [l] == [l];
    } else {
      assert (ls + [l])[1..] == ls[1..] + [l];
      MultiplesSnoc(ls[1..], l, step, line + 1);
    }
  }

  /** The position of line number `(j + 1) * step`. */
  function Position(j: nat, step: nat): int {
    (j + 1) * step - 1
  }

  lemma {:induction false} MultiplesAre(ls: seq<string>, step: nat)
    requires step > 0
    ensures var ms := Multiples(ls, step, 1);
            && |ms| == |ls| / step
            && forall j :: 0 <= j < |ms| ==> 0 <= Position(j, step) < |ls| && ms[j] == ls[Position(j, step)]
  {
    hide Position;
    if ls == [] {
      DivModUnique(0, step, 0, 0);
    } else {
      var n := |ls| - 1;
      var init, l := ls[..n], ls[n];
      MultiplesAre(init, step);
      assert ls == init + [l];
      MultiplesSnoc(init, l, step, 1);
      OneMore(n, step);
      if |ls| % step == 0 {
        PositionOfLast(|ls|, step);
      }
    }
  }

  lemma PositionOfLast(n: nat, step: nat)
    requires step > 0 && n > 0 && n % step == 0
    ensures n / step > 0 && Position(n / step - 1, step) == n - 1
  {
    DivMod(n, step);
  }

  lemma {:induction false} SampledLines(text: string, step: int, line: nat, delim: char)
    requires step != 0
    ensures var ws, ms := Sampled(text, step, line, delim), Multiples(Lines(text), step, line);
            |ws| == |ms| && forall j :: 0 <= j < |ws| ==> ws[j] == Cut(ms[j], delim)
    decreases |text|
  {
    hide UpTo;
    var buf := UpTo(text, '\n');
    if |buf| < |text| {
      SampledLines(text[|buf| + 1..], step, line + 1, delim);
      assert Lines(text)[1..] == Lines(text[|buf| + 1..]);
    }
  }

  /** The sample holds exactly the lines number `step`, `2 * step`, ..., each cut at the delimiter. */
  lemma {:induction false} SampleIsEveryStepth(text: string, step: nat, delim: char)
    requires step > 0
    ensures var ws, ls := Sampled(text, step, 1, delim), Lines(text);
            && |ws| == |ls| / step
            && forall j :: 0 <= j < |ws| ==> 0 <= Position(j, step) < |ls| && ws[j] == Cut(ls[Position(j, step)], delim)
  {
    hide Sampled, Lines, Multiples, Position, Cut;
    SampledLines(text, step, 1, delim);
    MultiplesAre(Lines(text), step);
  }

  /** The number of words is below twice the requested file size, whatever the file size. */
  lemma {:induction false} SampleBound(text: string, fileSizeEquiv: int, delim: char)
    requires fileSizeEquiv > 0
    ensures |Sampled(text, Step(|text|, fileSizeEquiv), 1, delim)| < 2 * fileSizeEquiv
  {
    hide Sampled, Lines, Position;
    SampleIsEveryStepth(text, Step(|text|, fileSizeEquiv), delim);
    FewMultiples(|Lines(text)|, |text|, fileSizeEquiv);
  }

  lemma {:induction false} FewMultiples(lines: nat, size: nat, e: nat)
    requires lines <= size && e > 0
    ensures var step := if size / e == 0 then 1 else size / e; lines / step < 2 * e
  {
    var q := size / e;
    DivMod(size, e);
    if q > 0 {
      var words := lines / q;
      DivMod(lines, q);
      // words * q <= lines <= size < q * e + e <= 2 * e * q
      Monotone(1, q, e);
      Distribute(e, e, q);
      if words >= 2 * e {
        Monotone(2 * e, words, q);
      }
    }
  }

  // ----- What a sample consists of

  /** Lines with the newlines that end them. */
  function Joined(ls: seq<string>): string {
    if ls == [] then [] else ls[0] + "\n" + Joined(ls[1..])
  }

  lemma PrefixBehind(a: string, p: string, s: string)
    requires p <= s
    ensures a + p <= a + s && (a + s)[|a + p|..] == s[|p|..]
  {
  }

  /** The lines of a file are what its newlines end; behind them there is none. */
  lemma {:induction false} LinesAre(text: string)
    ensures var ls := Lines(text);
            && Joined(ls) <= text && '\n' !in text[|Joined(ls)|..]
            && forall i :: 0 <= i < |ls| ==> '\n' !in ls[i]
    decreases |text|
  {
    hide UpTo, Joined;
    var buf := UpTo(text, '\n');
    if |buf| < |text| {
      var rest := text[|buf| + 1..];
      LinesAre(rest);
      JoinedFirst(buf, Lines(rest));
      assert text == buf + "\n" + rest;
      PrefixBehind(buf + "\n", Joined(Lines(rest)), rest);
    } else {
      JoinedNone();
    }
  }

  /** Lines are short if each has fewer than 512 characters, and what is behind them too. */
  lemma {:induction false} ShortLinesAre(text: string)
    ensures var ls := Lines(text);
            ShortLines(text) <==> (forall i :: 0 <= i < |ls| ==> |ls[i]| < 512) && |text| - |Joined(ls)| < 512
    decreases |text|
  {
    hide UpTo, Joined;
    var buf := UpTo(text, '\n');
    if |buf| < |text| {
      var rest := text[|buf| + 1..];
      ShortLinesAre(rest);
      JoinedFirst(buf, Lines(rest));
      assert Lines(text)[0] == buf && Lines(text)[1..] == Lines(rest);
      assert forall i :: 1 <= i < |Lines(text)| ==> Lines(text)[i] == Lines(rest)[i - 1];
      assert forall i :: 0 <= i < |Lines(rest)| ==> Lines(rest)[i] == Lines(text)[i + 1];
    } else {
      JoinedNone();
    }
  }

  lemma JoinedNone()
    ensures Joined([]) == []
  {
  }

  lemma JoinedFirst(l: string, ls: seq<string>)
    ensures Joined([l] + ls) == l + "\n" + Joined(ls)
  {
    assert ([l] + ls)[1..] == ls;
  }

  /** The text of a line up to the delimiter (or to a NUL, which ends a C string). */
  ghost predicate IsCut(word: string, line: string, delim: char) {
    && word <= line && delim !in word && NUL !in word
    && (|word| < |line| ==> line[|word|] == delim || line[|word|] == NUL)
  }

  lemma CutIs(line: string, delim: char)
    ensures IsCut(Cut(line, delim), line, delim)
  {
    var s := UpTo(line, NUL);
    assert UpTo(s, delim) <= s;
    assert forall c :: c in UpTo(s, delim) ==> c in s;
  }

  /** Every how many lines a word is taken, for an equivalent size that is not negative: 1 by default. */
  lemma StepIs(size: nat, e: nat)
    ensures Step(size, e) == if e == 0 || size < e then 1 else size / e
  {
    if 0 < e {
      DivMod(size, e);
      if size < e {
        DivModUnique(size, e, 0, size);
      } else if size / e <= 0 {
        Monotone(size / e, 0, e);
      }
    }
  }

  lemma PositionIs(j: nat, step: nat)
    requires step > 0
    ensures Position(j, step) + 1 == (j + 1) * step && Position(j, 1) == j
  {
  }

  /** The words of a file: for each `step`-th line its text up to the delimiter. By default, or when the
      file is smaller than the equivalent size, that is every line. */
  lemma {:induction false} WordsOfFile(text: string, e: nat, delim: char)
    ensures var size := |text|;
            var ls, step := Lines(text), if e == 0 || size < e then 1 else size / e;
            && step > 0
            && var ws := Sampled(text, Step(size, e), 1, delim);
               && |ws| == |ls| / step
               && (forall j :: 0 <= j < |ws| ==>
                     0 <= Position(j, step) < |ls| && IsCut(ws[j], ls[Position(j, step)], delim))
               && (e == 0 || size < e ==> |ws| == |ls| && forall j :: 0 <= j < |ws| ==> IsCut(ws[j], ls[j], delim))
  {
    hide Sampled, Lines, Position, Cut, IsCut, Step;
    StepIs(|text|, e);
    var step := Step(|text|, e);
    SampleIsEveryStepth(text, step, delim);
    var ws, ls := Sampled(text, step, 1, delim), Lines(text);
    forall j | 0 <= j < |ws|
      ensures IsCut(ws[j], ls[Position(j, step)], delim) && Position(j, 1) == j
    {
      CutIs(ls[Position(j, step)], delim);
      PositionIs(j, step);
    }
  }

  // ----- Random words

  /** The random number decides the word: `i`, or `i` and any number of times the size of the list,
      gives the `i`-th. */
  lemma {:induction false} RandomWordIs(words: seq<string>, i: nat, m: nat)
    requires i < |words|
    ensures Next(Random(words), i + m * |words|) == (words[i], Random(words))
  {
    DivModUnique(i + m * |words|, |words|, m, i);
  }
}
