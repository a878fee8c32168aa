/** The generator of test data: rows of random fields laid out by a format. */
module GenData {
  import opened CStrings

  const MAX_STR_WIDTH := 256

  // ----- Formats

  datatype Item = Plain(c: char) | Str(lo: nat, hi: nat) | RowNum(lo: nat, hi: nat) | Num(lo: nat, hi: nat) | Invalid

  /** A format outside a specifier. */
  function Items(t: string): seq<Item>
    decreases |t|
  {
    if t == [] then []
    else if t[0] == '%' then Spec(t[1..], 0, 0)
    else [Plain(t[0])] + Items(t[1..])
  }

  /** Inside a specifier whose two numbers so far are `lo` and `width`; nothing comes of one that the
      format cuts short. */
  function Spec(t: string, lo: nat, width: nat): seq<Item>
    decreases |t|
  {
    if t == [] then []
    else if t[0] == '%' then [Plain('%')] + Items(t[1..])
    else if t[0] == '-' then Spec(t[1..], width, 0)
    else if t[0] == 's' then [Str(lo, width)] + Items(t[1..])
    else if t[0] == 'n' then [RowNum(lo, width)] + Items(t[1..])
    else if t[0] == 'd' then [Num(lo, width)] + Items(t[1..])
    else if IsDigit(t[0]) then Spec(t[1..], lo, width * 10 + DigitOf(t[0]))
    else [Invalid]
  }

  lemma {:induction false} SpecReadsNumber(ds: string, t: string, lo: nat)
    requires AllDigits(ds)
    ensures Spec(ds + t, lo, 0) == Spec(t, lo, Value(ds))
    decreases |ds|
  {
    if ds == [] {
      assert ds + t == t;
    } else {
      var front, last := ds[..|ds| - 1], ds[|ds| - 1];
      assert ds + t == front + ([last] + t) && ([last] + t)[1..] == t;
      SpecReadsNumber(front, [last] + t, lo);
    }
  }

  /** What a specifier with one number, or with two, stands for. */
  lemma {:induction false} SpecifierIs(a: string, b: string, c: char, rest: string)
    requires AllDigits(a) && AllDigits(b) && !IsDigit(c) && c != '-'
    ensures Items("%" + (b + ([c] + rest))) == Specified(0, Value(b), c, rest)
    ensures Items("%" + (a + ("-" + (b + ([c] + rest))))) == Specified(Value(a), Value(b), c, rest)
  {
    hide Value;
    var t := b + ([c] + rest);
    assert ("%" + t)[1..] == t && ("%" + (a + ("-" + t)))[1..] == a + ("-" + t) && ("-" + t)[1..] == t;
    SpecReadsNumber(b, [c] + rest, 0);
    SpecReadsNumber(a, "-" + t, 0);
    SpecReadsNumber(b, [c] + rest, Value(a));
    assert ([c] + rest)[1..] == rest;
  }

  /** A conversion with its two numbers, and the text behind it. */
  function Specified(lo: nat, hi: nat, c: char, rest: string): seq<Item> {
    match c
    case 's' => [Str(lo, hi)] + Items(rest)
    case 'n' => [RowNum(lo, hi)] + Items(rest)
    case 'd' => [Num(lo, hi)] + Items(rest)
    case '%' => [Plain('%')] + Items(rest)
    case _ => [Invalid]
  }

  // ----- Fields

  /** `rand() % (max - min)` above `min`; the remainder of a number that is not negative does not
      depend on the sign of the divisor. */
  function GetRand(min: int, max: int, r: nat): int {
    if min == max then min else min + r % (max - min)
  }

  function GetWidth(lo: nat, hi: nat, r: nat): nat {
    if hi == 0 || lo == hi then lo else GetRand(lo, hi, r)
  }

  /** Whether choosing the width takes a random number. */
  function WidthDraws(lo: nat, hi: nat): nat {
    if hi == 0 || lo == hi then 0 else 1
  }

  function StrWidth(width: nat): (w: nat)
    ensures 1 <= w <= MAX_STR_WIDTH
  {
    if width > MAX_STR_WIDTH || width == 0 then MAX_STR_WIDTH else width
  }

  /** A random letter; the last one of the alphabet is never drawn. */
  function Letter(r: nat): (c: char)
    ensures 'a' <= c <= 'y'
  {
    ('a' as int + GetRand(0, 'z' as int - 'a' as int, r)) as char
  }

  function Letters(n: nat, rnd: nat -> nat, k: nat): (s: string)
    ensures |s| == n && forall i :: 0 <= i < n ==> 'a' <= s[i] <= 'y'
  {
    if n == 0 then [] else Letters(n - 1, rnd, k) + [Letter(rnd(k + n - 1))]
  }

  lemma LettersNext(n: nat, rnd: nat -> nat, k: nat)
    ensures Letters(0, rnd, k) == [] && Letters(n + 1, rnd, k) == Letters(n, rnd, k) + [Letter(rnd(k + n))]
  {
  }

  /** `%*d` */
  function PadTo(width: nat, n: nat): (s: string)
    ensures |s| >= width
  {
    var d := Decimal(n);
    Repeat(' ', if |d| < width then width - |d| else 0) + d
  }

  /** The text of a field, when `rnd(k)` is the next random number. */
  function FieldText(item: Item, row: nat, rnd: nat -> nat, k: nat): string {
    match item
    case Plain(c) => [c]
    case Str(lo, hi) => Letters(StrWidth(GetWidth(lo, hi, rnd(k))), rnd, k + WidthDraws(lo, hi))
    case RowNum(lo, hi) => PadTo(GetWidth(lo, hi, rnd(k)), row)
    case Num(lo, hi) => PadTo(GetWidth(lo, hi, rnd(k)), rnd(k + WidthDraws(lo, hi)))
    case Invalid => []
  }

  function FieldDraws(item: Item, rnd: nat -> nat, k: nat): nat {
    match item
    case Plain(_) => 0
    case Str(lo, hi) => WidthDraws(lo, hi) + StrWidth(GetWidth(lo, hi, rnd(k)))
    case RowNum(lo, hi) => WidthDraws(lo, hi)
    case Num(lo, hi) => WidthDraws(lo, hi) + 1
    case Invalid => 0
  }

  // ----- Rows

  datatype Outcome = Printed(text: string, draws: nat) | Died(text: string)

  /** What is printed behind `out` for the items of one row. */
  function Print(items: seq<Item>, row: nat, rnd: nat -> nat, k: nat, out: string): Outcome
    decreases |items|
  {
    if items == [] then Printed(out, k)
    else if items[0].Invalid? then Died(out)
    else Print(items[1..], row, rnd, k + FieldDraws(items[0], rnd, k), out + FieldText(items[0], row, rnd, k))
  }

  /** `n` rows, each ended by a newline. */
  function PrintAll(items: seq<Item>, row: nat, rnd: nat -> nat, k: nat, n: nat, out: string): Outcome
    decreases n
  {
    if n == 0 then Printed(out, k)
    else
      match Print(items, row, rnd, k, out)
      case Died(text) => Died(text)
      case Printed(text, k') => PrintAll(items, row + 1, rnd, k', n - 1, text + "\n")
  }

  class Generator {
    const fmt: string
    var rowNum: nat
    var out: string
    var draws: nat

    constructor (fmt: string)
      ensures this.fmt == fmt && rowNum == 1 && out == "" && draws == 0
    {
      this.fmt := fmt;
      rowNum, out, draws := 1, "", 0;
    }

    method NextRand(rnd: nat -> nat) returns (r: nat)
      modifies `draws
      ensures r == rnd(old(draws)) && draws == old(draws) + 1
    {
      r := rnd(draws);
      draws := draws + 1;
    }

    method ChooseWidth(lo: nat, hi: nat, rnd: nat -> nat) returns (width: nat)
      modifies `draws
      ensures width == GetWidth(lo, hi, rnd(old(draws))) && draws == old(draws) + WidthDraws(lo, hi)
    {
      if hi == 0 {
        return lo;
      } else if lo != hi {
        var r := NextRand(rnd);
        return GetRand(lo, hi, r);
      }
      return lo;
    }

    method PrintRowNum(lo: nat, hi: nat, rnd: nat -> nat)
      modifies `draws, `out
      ensures out == old(out) + FieldText(RowNum(lo, hi), rowNum, rnd, old(draws))
      ensures draws == old(draws) + FieldDraws(RowNum(lo, hi), rnd, old(draws))
    {
      var width := ChooseWidth(lo, hi, rnd);
      out := out + PadTo(width, rowNum);
    }

    method PrintNum(lo: nat, hi: nat, rnd: nat -> nat)
      modifies `draws, `out
      ensures out == old(out) + FieldText(Num(lo, hi), rowNum, rnd, old(draws))
      ensures draws == old(draws) + FieldDraws(Num(lo, hi), rnd, old(draws))
    {
      var width := ChooseWidth(lo, hi, rnd);
      var r := NextRand(rnd);
      out := out + PadTo(width, r);
    }

    method PrintStr(lo: nat, hi: nat, rnd: nat -> nat)
      modifies `draws, `out
      ensures out == old(out) + FieldText(Str(lo, hi), rowNum, rnd, old(draws))
      ensures draws == old(draws) + FieldDraws(Str(lo, hi), rnd, old(draws))
    {
      hide GetWidth, WidthDraws, Decimal, PadTo, Letter, Letters, FieldText, FieldDraws;
      StrField(lo, hi, rowNum, rnd, draws);
      var width := ChooseWidth(lo, hi, rnd);
      if width > MAX_STR_WIDTH || width == 0 {
        width := MAX_STR_WIDTH;
      }
      ghost var k := draws;
      LettersNext(0, rnd, k);
      assert out + [] == out;
      var i := 0;
      while i < width
        invariant 0 <= i <= width && draws == k + i
        invariant out == old(out) + Letters(i, rnd, k)
      {
        var r := NextRand(rnd);
        LettersNext(i, rnd, k);
        Assoc(old(out), Letters(i, rnd, k), [Letter(r)]);
        out := out + [Letter(r)];
        i := i + 1;
      }
    }

    method PrintRow(rnd: nat -> nat) returns (ok: bool)
      modifies `draws, `out, `rowNum
      ensures match Print(Items(fmt), old(rowNum), rnd, old(draws), old(out))
              case Printed(text, k) => ok && out == text + "\n" && draws == k && rowNum == old(rowNum) + 1
              case Died(text) => !ok && out == text
    {
      hide Items, Spec, Ahead, Print, Letters, PadTo, GetWidth, WidthDraws, StrWidth;
      AheadAtEnds(fmt, 0, 0);
      var inFmt, p := false, 0;
      var lo: nat, width: nat := 0, 0;
      assert fmt[0..] == fmt;
      while p < |fmt|
        invariant 0 <= p <= |fmt| && rowNum == old(rowNum)
        invariant Print(Items(fmt), rowNum, rnd, old(draws), old(out)) ==
                  Print(Ahead(inFmt, fmt[p..], lo, width), rowNum, rnd, draws, out)
      {
        var c := fmt[p];
        AheadStep(inFmt, fmt[p..], lo, width);
        ghost var rest := fmt[p + 1..];
        assert fmt[p..][1..] == rest && fmt[p..][0] == c;
        AheadAtEnds(rest, lo, width);
        if !inFmt {
          if c != '%' {
            PrintFirst(Plain(c), Items(rest), rowNum, rnd, draws, out);
            out := out + [c];
          } else {
            inFmt, lo, width := true, 0, 0;
          }
        } else if c == '%' {
          PrintFirst(Plain(c), Items(rest), rowNum, rnd, draws, out);
          out, inFmt := out + [c], false;
        } else if c == '-' {
          lo, width := width, 0;
        } else if c == 's' {
          PrintFirst(Str(lo, width), Items(rest), rowNum, rnd, draws, out);
          PrintStr(lo, width, rnd);
          inFmt := false;
        } else if c == 'n' {
          PrintFirst(RowNum(lo, width), Items(rest), rowNum, rnd, draws, out);
          PrintRowNum(lo, width, rnd);
          inFmt := false;
        } else if c == 'd' {
          PrintFirst(Num(lo, width), Items(rest), rowNum, rnd, draws, out);
          PrintNum(lo, width, rnd);
          inFmt := false;
        } else if IsDigit(c) {
          width := width * 10 + DigitOf(c);
        } else {
          PrintAtEnds(rowNum, rnd, draws, out);
          return false;
        }
        p := p + 1;
      }
      assert fmt[p..] == [];
      AheadAtEnds([], lo, width);
      PrintAtEnds(rowNum, rnd, draws, out);
      out := out + "\n";
      rowNum := rowNum + 1;
      return true;
    }

    /** The loop of `main`. */
    method PrintRows(numRows: int, rnd: nat -> nat) returns (ok: bool)
      modifies `draws, `out, `rowNum
      ensures match PrintAll(Items(fmt), old(rowNum), rnd, old(draws), if numRows > 0 then numRows else 0, old(out))
              case Printed(text, k) => ok && out == text && draws == k
              case Died(text) => !ok && out == text
    {
      var i := 0;
      ok := true;
      while i < numRows
        invariant i == 0 || 0 < i <= numRows
        invariant PrintAll(Items(fmt), old(rowNum), rnd, old(draws), if numRows > 0 then numRows else 0, old(out)) ==
                  PrintAll(Items(fmt), rowNum, rnd, draws, if numRows > 0 then numRows - i else 0, out)
      {
        ok := PrintRow(rnd);
        if !ok {
          return;
        }
        i := i + 1;
      }
    }
  }

  lemma StrField(lo: nat, hi: nat, row: nat, rnd: nat -> nat, k: nat)
    ensures var n := StrWidth(GetWidth(lo, hi, rnd(k)));
            && FieldText(Str(lo, hi), row, rnd, k) == Letters(n, rnd, k + WidthDraws(lo, hi))
            && FieldDraws(Str(lo, hi), rnd, k) == WidthDraws(lo, hi) + n
  {
  }

  /** The items still to come when the automaton has `t` before it. */
  function Ahead(inFmt: bool, t: string, lo: nat, width: nat): seq<Item> {
    if inFmt then Spec(t, lo, width) else Items(t)
  }

  lemma AheadStep(inFmt: bool, t: string, lo: nat, width: nat)
    requires t != []
    ensures var c, rest := t[0], t[1..];
            Ahead(inFmt, t, lo, width) ==
            if !inFmt then if c == '%' then Ahead(true, rest, 0, 0) else [Plain(c)] + Items(rest)
            else if c == '%' then [Plain('%')] + Items(rest)
            else if c == '-' then Ahead(true, rest, width, 0)
            else if c == 's' then [Str(lo, width)] + Items(rest)
            else if c == 'n' then [RowNum(lo, width)] + Items(rest)
            else if c == 'd' then [Num(lo, width)] + Items(rest)
            else if IsDigit(c) then Ahead(true, rest, lo, width * 10 + DigitOf(c))
            else [Invalid]
  {
  }

  lemma AheadAtEnds(t: string, lo: nat, width: nat)
    ensures Ahead(false, t, lo, width) == Items(t)
    ensures forall inFmt :: Ahead(inFmt, [], lo, width) == []
  {
  }

  lemma PrintAtEnds(row: nat, rnd: nat -> nat, k: nat, out: string)
    ensures Print([], row, rnd, k, out) == Printed(out, k)
    ensures Print([Invalid], row, rnd, k, out) == Died(out)
  {
  }

  lemma PrintFirst(item: Item, items: seq<Item>, row: nat, rnd: nat -> nat, k: nat, out: string)
    requires !item.Invalid?
    ensures Print([item] + items, row, rnd, k, out) ==
            Print(items, row, rnd, k + FieldDraws(item, rnd, k), out + FieldText(item, row, rnd, k))
  {
    hide FieldText, FieldDraws;
    assert ([item] + items)[1..] == items;
  }

  // ----- Columns

  /** The characters a random field can consist of. */
  predicate Filler(c: char) {
    'a' <= c <= 'y' || IsDigit(c) || c == ' '
  }

  function Fixed(s: string): string {
    if s == [] then [] else (if Filler(s[0]) then [] else [s[0]]) + Fixed(s[1..])
  }

  /** The plain text of a format. */
  function PlainText(items: seq<Item>): string {
    if items == [] then [] else (if items[0].Plain? then [items[0].c] else []) + PlainText(items[1..])
  }

  lemma {:induction false} FixedConcat(a: string, b: string)
    ensures Fixed(a + b) == Fixed(a) + Fixed(b)
  {
    if a == [] {
      assert a + b == b;
    } else {
      assert (a + b)[1..] == a[1..] + b;
      FixedConcat(a[1..], b);
    }
  }

  lemma {:induction false} FixedOfFiller(s: string)
    requires forall c :: c in s ==> Filler(c)
    ensures Fixed(s) == []
  {
    if s != [] {
      assert s[0] in s && forall c :: c in s[1..] ==> c in s;
      FixedOfFiller(s[1..]);
    }
  }

  lemma {:induction false} CountFixed(s: string, c: char)
    requires !Filler(c)
    ensures Count(s, c) == Count(Fixed(s), c)
  {
    if s != [] {
      CountFixed(s[1..], c);
      CountConcat(if Filler(s[0]) then [] else [s[0]], Fixed(s[1..]), c);
    }
  }

  lemma {:induction false} FieldIsFiller(item: Item, row: nat, rnd: nat -> nat, k: nat)
    requires !item.Plain?
    ensures forall c :: c in FieldText(item, row, rnd, k) ==> Filler(c)
  {
    hide GetWidth, StrWidth, Decimal;
    var s := FieldText(item, row, rnd, k);
    forall i | 0 <= i < |s| ensures Filler(s[i]) {
    }
  }

  lemma {:induction false} FieldKeepsFormat(items: seq<Item>, row: nat, rnd: nat -> nat, k: nat)
    requires items != []
    ensures Fixed(PlainText(items)) == Fixed(FieldText(items[0], row, rnd, k)) + Fixed(PlainText(items[1..]))
  {
    if items[0].Plain? {
      FixedConcat([items[0].c], PlainText(items[1..]));
    } else {
      FieldIsFiller(items[0], row, rnd, k);
      FixedOfFiller(FieldText(items[0], row, rnd, k));
      assert PlainText(items) == PlainText(items[1..]);
    }
  }

  /** The columns of a row: whatever the random numbers are, the row without the characters that
      fields are made of is the plain text of the format without them. */
  lemma {:induction false} RowKeepsFormat(items: seq<Item>, row: nat, rnd: nat -> nat, k: nat, out: string)
    requires Print(items, row, rnd, k, out).Printed?
    ensures Fixed(Print(items, row, rnd, k, out).text) == Fixed(out) + Fixed(PlainText(items))
    decreases |items|
  {
    if items == [] {
      assert Fixed(out) + [] == Fixed(out);
    } else {
      hide FieldText, FieldDraws, Fixed, PlainText;
      var text := FieldText(items[0], row, rnd, k);
      RowKeepsFormat(items[1..], row, rnd, k + FieldDraws(items[0], rnd, k), out + text);
      FixedConcat(out, text);
      FieldKeepsFormat(items, row, rnd, k);
      Assoc(Fixed(out), Fixed(text), Fixed(PlainText(items[1..])));
    }
  }

  /** In particular a row has as many commas as the format has in plain text, and as many newlines:
      none but the one that ends it, when the format has none. */
  lemma {:induction false} CountInRow(fmt: string, row: nat, rnd: nat -> nat, k: nat, c: char)
    requires Print(Items(fmt), row, rnd, k, []).Printed? && !Filler(c)
    ensures Count(Print(Items(fmt), row, rnd, k, []).text, c) == Count(PlainText(Items(fmt)), c)
  {
    hide Fixed, Count, Print, Items;
    RowKeepsFormat(Items(fmt), row, rnd, k, []);
    FixedOfFiller([]);
    assert [] + Fixed(PlainText(Items(fmt))) == Fixed(PlainText(Items(fmt)));
    CountFixed(Print(Items(fmt), row, rnd, k, []).text, c);
    CountFixed(PlainText(Items(fmt)), c);
  }

  // ----- Runs

  /** A format kills the generator, at its first row, if and only if it has an invalid specifier. */
  lemma {:induction false} DiesOnInvalid(items: seq<Item>, row: nat, rnd: nat -> nat, k: nat, out: string)
    ensures Print(items, row, rnd, k, out).Died? <==> Invalid in items
    decreases |items|
  {
    hide FieldText, FieldDraws;
    if items != [] && !items[0].Invalid? {
      DiesOnInvalid(items[1..], row, rnd, k + FieldDraws(items[0], rnd, k), out + FieldText(items[0], row, rnd, k));
      assert items == [items[0]] + items[1..];
    }
  }

  lemma {:induction false} PrintAppends(items: seq<Item>, row: nat, rnd: nat -> nat, k: nat, out: string)
    requires Invalid !in items
    ensures var o, p := Print(items, row, rnd, k, out), Print(items, row, rnd, k, []);
            o.Printed? && p.Printed? && o.text == out + p.text && o.draws == p.draws
    decreases |items|
  {
    if items != [] {
      hide FieldText, FieldDraws;
      assert items[0] in items && forall i :: i in items[1..] ==> i in items;
      var text, k' := FieldText(items[0], row, rnd, k), k + FieldDraws(items[0], rnd, k);
      PrintAppends(items[1..], row, rnd, k', out + text);
      PrintAppends(items[1..], row, rnd, k', [] + text);
      assert [] + text == text;
      Assoc(out, text, Print(items[1..], row, rnd, k', []).text);
    } else {
      assert out + [] == out;
    }
  }

  /** The rows of a run, one by one. */
  function Rows(items: seq<Item>, row: nat, rnd: nat -> nat, k: nat, n: nat): seq<string>
    decreases n
  {
    if n == 0 then []
    else
      match Print(items, row, rnd, k, [])
      case Died(_) => []
      case Printed(text, k') => [text] + Rows(items, row + 1, rnd, k', n - 1)
  }

  function Lines(rows: seq<string>): string {
    if rows == [] then [] else rows[0] + "\n" + Lines(rows[1..])
  }

  lemma {:induction false} RunPrintsRows(items: seq<Item>, row: nat, rnd: nat -> nat, k: nat, n: nat, out: string)
    requires Invalid !in items
    ensures |Rows(items, row, rnd, k, n)| == n
    ensures var o := PrintAll(items, row, rnd, k, n, out);
            o.Printed? && o.text == out + Lines(Rows(items, row, rnd, k, n))
    decreases n
  {
    if n == 0 {
      assert out + [] == out;
    } else {
      hide Print, Lines;
      PrintAppends(items, row, rnd, k, out);
      var p := Print(items, row, rnd, k, []);
      var rest := Rows(items, row + 1, rnd, p.draws, n - 1);
      assert PrintAll(items, row, rnd, k, n, out)
          == PrintAll(items, row + 1, rnd, p.draws, n - 1, out + p.text + "\n");
      RunPrintsRows(items, row + 1, rnd, p.draws, n - 1, out + p.text + "\n");
      assert Rows(items, row, rnd, k, n) == [p.text] + rest;
      hide PrintAll, Rows;
      LinesFirst(p.text, rest);
      Assoc(out, p.text, "\n");
      Assoc(out, p.text + "\n", Lines(rest));
    }
  }

  lemma LinesFirst(text: string, rest: seq<string>)
    ensures Lines([text] + rest) == text + "\n" + Lines(rest)
  {
    assert ([text] + rest)[1..] == rest;
  }

  /** With an invalid specifier in the format a run prints the fields before it once, and dies. */
  lemma {:induction false} RunDies(
      a: seq<Item>, b: seq<Item>, row: nat, rnd: nat -> nat, k: nat, n: nat, out: string)
    requires Invalid !in a && n > 0
    ensures var p := Print(a, row, rnd, k, out);
            p.Printed? && PrintAll(a + ([Invalid] + b), row, rnd, k, n, out) == Died(p.text)
  {
    hide Print;
    RowDies(a, b, row, rnd, k, out);
  }

  lemma {:induction false} RowDies(a: seq<Item>, b: seq<Item>, row: nat, rnd: nat -> nat, k: nat, out: string)
    requires Invalid !in a
    ensures var p := Print(a, row, rnd, k, out);
            p.Printed? && Print(a + ([Invalid] + b), row, rnd, k, out) == Died(p.text)
    decreases |a|
  {
    hide FieldText, FieldDraws;
    var items := a + ([Invalid] + b);
    if a == [] {
      assert items[0] == Invalid;
    } else {
      assert items[0] == a[0] && items[1..] == a[1..] + ([Invalid] + b);
      assert a[0] in a && forall i :: i in a[1..] ==> i in a;
      RowDies(a[1..], b, row, rnd, k + FieldDraws(a[0], rnd, k), out + FieldText(a[0], row, rnd, k));
    }
  }

  // ----- Distinct first columns

  /** The digits of a text. */
  function Digits(s: string): string {
    if s == [] then [] else (if IsDigit(s[0]) then [s[0]] else []) + Digits(s[1..])
  }

  lemma {:induction false} DigitsBehind(a: string, d: string)
    requires AllDigits(d) && forall i :: 0 <= i < |a| ==> !IsDigit(a[i])
    ensures Digits(a + d) == d
  {
    if a != [] {
      assert (a + d)[1..] == a[1..] + d;
      DigitsBehind(a[1..], d);
    } else {
      assert a + d == d;
      if d != [] {
        DigitsBehind([], d[1..]);
        assert [] + d[1..] == d[1..];
      }
    }
  }

  /** The text before the first comma. */
  function FirstColumn(row: string): string {
    UpTo(row, ',')
  }

  /** A format whose first column is a random string and the row number, as in
      `%12-12s%n,%25-25s,%n,%d`. */
  predicate Keyed(items: seq<Item>) {
    |items| >= 2 && items[0].Str? && items[1].RowNum? && (|items| > 2 ==> items[2] == Plain(','))
  }

  /** A row from its first two fields on. */
  lemma {:induction false} RowOfKey(items: seq<Item>, row: nat, rnd: nat -> nat, k: nat) returns (kb: nat)
    requires Keyed(items) && Invalid !in items
    ensures var a, tail := FieldText(items[0], row, rnd, k), Print(items[2..], row, rnd, kb, []);
            var b := FieldText(items[1], row, rnd, k + FieldDraws(items[0], rnd, k));
            tail.Printed? && Print(items, row, rnd, k, []).text == a + b + tail.text
  {
    hide FieldText, FieldDraws;
    var a, ka := FieldText(items[0], row, rnd, k), k + FieldDraws(items[0], rnd, k);
    var b := FieldText(items[1], row, rnd, ka);
    kb := ka + FieldDraws(items[1], rnd, ka);
    assert items[1..][1..] == items[2..] && [] + a == a;
    assert Print(items, row, rnd, k, []) == Print(items[1..], row, rnd, ka, a)
                                         == Print(items[2..], row, rnd, kb, a + b);
    PrintAppends(items[2..], row, rnd, kb, a + b);
  }

  lemma {:induction false} KeyOfRow(items: seq<Item>, row: nat, rnd: nat -> nat, k: nat)
    requires Keyed(items) && Invalid !in items
    ensures Digits(FirstColumn(Print(items, row, rnd, k, []).text)) == Decimal(row)
  {
    hide Decimal, GetWidth, StrWidth, WidthDraws, Digits, UpTo, Print;
    var a, d := FieldText(items[0], row, rnd, k), Decimal(row);
    var b := FieldText(items[1], row, rnd, k + FieldDraws(items[0], rnd, k));
    var kb := RowOfKey(items, row, rnd, k);
    var pad, tail := Repeat(' ', |b| - |d|), Print(items[2..], row, rnd, kb, []).text;
    assert b == pad + d;
    Assoc(a, pad, d);
    DigitsBehind(a + pad, d);
    assert ',' !in a + b;
    if |items| > 2 {
      PrintFirstChar(items[2..], row, rnd, kb);
      UpToAppend(a + b, tail, ',');
    } else {
      PrintAtEnds(row, rnd, kb, []);
      assert items[2..] == [];
      assert a + b + tail == a + b;
    }
    UpToAll(a + b, ',');
  }

  lemma PrintFirstChar(items: seq<Item>, row: nat, rnd: nat -> nat, k: nat)
    requires items != [] && items[0].Plain? && Invalid !in items
    ensures var t := Print(items, row, rnd, k, []).text; t != [] && t[0] == items[0].c
  {
    hide Print, FieldText, FieldDraws;
    var c := items[0].c;
    assert items == [Plain(c)] + items[1..];
    PlainField(c, row, rnd, k);
    PrintFirst(Plain(c), items[1..], row, rnd, k, []);
    assert [] + [c] == [c];
    PrintAppends(items[1..], row, rnd, k, [c]);
  }

  lemma PlainField(c: char, row: nat, rnd: nat -> nat, k: nat)
    ensures FieldText(Plain(c), row, rnd, k) == [c] && FieldDraws(Plain(c), rnd, k) == 0
  {
  }

  lemma {:induction false} RowsAreNumbered(items: seq<Item>, row: nat, rnd: nat -> nat, k: nat, n: nat)
    requires Keyed(items) && Invalid !in items
    ensures var rows := Rows(items, row, rnd, k, n);
            |rows| == n && forall i :: 0 <= i < n ==> Digits(FirstColumn(rows[i])) == Decimal(row + i)
    decreases n
  {
    hide Print, Digits, Decimal, FirstColumn, Keyed;
    if n > 0 {
      KeyOfRow(items, row, rnd, k);
      PrintAppends(items, row, rnd, k, []);
      RowsAreNumbered(items, row + 1, rnd, Print(items, row, rnd, k, []).draws, n - 1);
    }
  }

  /** A leading column of a random string and the row number is a key, as the sample tables need:
      no two rows of a run have the same, whatever the random numbers are. */
  lemma {:induction false} FirstColumnsDistinct(items: seq<Item>, row: nat, rnd: nat -> nat, k: nat, n: nat)
    requires Keyed(items) && Invalid !in items
    ensures var rows := Rows(items, row, rnd, k, n);
            |rows| == n && forall i, j :: 0 <= i < j < n ==> FirstColumn(rows[i]) != FirstColumn(rows[j])
  {
    hide Rows, Decimal, FirstColumn, Digits, Keyed;
    RowsAreNumbered(items, row, rnd, k, n);
    var rows := Rows(items, row, rnd, k, n);
    forall i, j | 0 <= i < j < n ensures FirstColumn(rows[i]) != FirstColumn(rows[j]) {
      assert Value(Decimal(row + i)) != Value(Decimal(row + j));
    }
  }

  /** What the format text of such a column is read as. */
  lemma {:induction false} KeyFormat(m: nat, n: nat, rest: string)
    requires rest == [] || rest[0] == ','
    ensures var fmt := "%" + Decimal(m) + "-" + Decimal(n) + "s%n" + rest;
            Items(fmt) == [Str(m, n), RowNum(0, 0)] + Items(rest) && Keyed(Items(fmt))
  {
    hide Decimal, Value;
    var a, b, tail := Decimal(m), Decimal(n), "s%n" + rest;
    var fmt := "%" + a + "-" + b + "s%n" + rest;
    assert fmt == "%" + (a + ("-" + (b + tail)));
    assert fmt[1..] == a + ("-" + (b + tail)) && ("-" + (b + tail))[1..] == b + tail;
    SpecReadsNumber(a, "-" + (b + tail), 0);
    SpecReadsNumber(b, tail, m);
    KeyTail(m, n, rest);
  }

  lemma KeyTail(lo: nat, width: nat, rest: string)
    requires rest == [] || rest[0] == ','
    ensures Spec("s%n" + rest, lo, width) == [Str(lo, width), RowNum(0, 0)] + Items(rest)
    ensures Items(rest) != [] ==> Items(rest)[0] == Plain(',')
  {
    assert ("s%n" + rest)[1..] == "%n" + rest && ("%n" + rest)[1..] == "n" + rest && ("n" + rest)[1..] == rest;
    assert Spec("n" + rest, 0, 0) == [RowNum(0, 0)] + Items(rest);
    assert Items("%n" + rest) == Spec("n" + rest, 0, 0);
  }

  // ----- Widths

  /** The width drawn between two different bounds never reaches the upper one. */
  lemma UpperWidthExcluded(lo: nat, hi: nat, r: nat)
    requires lo < hi
    ensures lo <= GetWidth(lo, hi, r) < hi
    ensures lo + 1 == hi ==> GetWidth(lo, hi, r) == lo
  {
  }

  /** How many letters `%m-ns` prints when `r` is the random number for its width. */
  function LettersPrinted(m: nat, n: nat, r: nat): nat {
    StrWidth(GetWidth(m, n, r))
  }

  lemma LettersAre(m: nat, n: nat, row: nat, rnd: nat -> nat, k: nat)
    ensures |FieldText(Str(m, n), row, rnd, k)| == LettersPrinted(m, n, rnd(k))
  {
  }

  /** The number of letters is between the bounds, whatever the random number. */
  ghost predicate KeepsPromise(m: nat, n: nat) {
    forall rnd: nat -> nat, row: nat, k: nat ::
      m <= |FieldText(Str(m, n), row, rnd, k)| <= n
  }

  /** `%m-ns` prints between `m` and `n` letters for all random numbers if and only if the bounds are in
      order, the lower one is at most the maximum width, and, if it is 0, the upper one is no less
      than that. */
  lemma {:induction false} PromiseKept(m: nat, n: nat)
    ensures KeepsPromise(m, n) <==> 0 < n && m <= n && m <= MAX_STR_WIDTH && (m == 0 ==> n >= MAX_STR_WIDTH)
  {
    if 0 < n && m <= n && m <= MAX_STR_WIDTH && (m == 0 ==> n >= MAX_STR_WIDTH) {
      forall rnd: nat -> nat, row: nat, k: nat ensures m <= |FieldText(Str(m, n), row, rnd, k)| <= n {
        LettersAre(m, n, row, rnd, k);
      }
    } else {
      PromiseBroken(m, n);
    }
  }

  /** Otherwise it fails already where the random numbers are all 0. */
  lemma {:induction false} PromiseBroken(m: nat, n: nat)
    requires !(0 < n && m <= n && m <= MAX_STR_WIDTH && (m == 0 ==> n >= MAX_STR_WIDTH))
    ensures !KeepsPromise(m, n)
  {
    var rnd := (k: nat) => 0;
    LettersAre(m, n, 1, rnd, 0);
    assert GetWidth(m, n, 0) == m;
    assert !(m <= |FieldText(Str(m, n), 1, rnd, 0)| <= n);
  }

  /** The upper bound itself is printed for some random number if and only if it is the maximum width
      and the lower bound 0, when the bounds are different. */
  lemma {:induction false} UpperBoundPrinted(m: nat, n: nat)
    requires m < n
    ensures (exists r: nat :: LettersPrinted(m, n, r) == n) <==> m == 0 && n == MAX_STR_WIDTH
  {
    if m == 0 && n == MAX_STR_WIDTH {
      assert LettersPrinted(m, n, 0) == n;
    }
  }

  /** `%0-5s` with a random number of 0, and `%300-400s` with any: 256 letters. */
  lemma PromiseInstances(r: nat)
    ensures LettersPrinted(0, 5, 0) == 256 && LettersPrinted(300, 400, r) == 256
    ensures !KeepsPromise(0, 5) && !KeepsPromise(300, 400)
  {
    PromiseBroken(0, 5);
    PromiseBroken(300, 400);
  }

  /** A lone width is an upper bound, not a width: of `%ns` the string has `n` letters only when `n`
      is the maximum and the width drawn is 0. */
  lemma LoneWidth(n: nat, rnd: nat -> nat, k: nat, row: nat)
    requires n > 0
    ensures |FieldText(Str(0, n), row, rnd, k)| == n <==> n == MAX_STR_WIDTH && rnd(k) % n == 0
  {
  }

  // ----- Which width, and which letters

  const LETTERS := "abcdefghijklmnopqrstuvwxy"

  lemma {:induction false} LettersAt(n: nat, rnd: nat -> nat, k: nat)
    ensures forall i :: 0 <= i < n ==> Letters(n, rnd, k)[i] == LETTERS[rnd(k + i) % 25]
  {
    hide Letter;
    if n > 0 {
      LettersAt(n - 1, rnd, k);
      LetterIs(rnd(k + n - 1));
    }
  }

  lemma LetterIs(r: nat)
    ensures Letter(r) == LETTERS[r % 25]
  {
    assert LETTERS[r % 25] == ('a' as int + r % 25) as char;
  }

  /** A random number that is `d` above a multiple of the difference of the bounds makes the width `d`
      more than the first bound. The next random numbers are for the letters, or for the number. */
  lemma {:induction false} FieldIs(lo: nat, hi: nat, d: nat, m: nat, row: nat, rnd: nat -> nat, k: nat)
    requires hi != 0 && lo != hi
    requires var gap := if lo < hi then hi - lo else lo - hi; d < gap && rnd(k) == d + m * gap
    ensures var s := FieldText(Str(lo, hi), row, rnd, k);
            && |s| == (if 1 <= lo + d <= 256 then lo + d else 256)
            && forall i :: 0 <= i < |s| ==> s[i] == LETTERS[rnd(k + 1 + i) % 25]
    ensures RightAligned(FieldText(RowNum(lo, hi), row, rnd, k), lo + d, row)
    ensures RightAligned(FieldText(Num(lo, hi), row, rnd, k), lo + d, rnd(k + 1))
  {
    hide FieldText, RightAligned, GetWidth, WidthDraws;
    WidthIs(lo, hi, d, m, rnd(k));
    FieldOfWidth(lo, hi, lo + d, row, rnd, k);
  }

  /** Without bounds to choose between nothing is drawn for the width. */
  lemma {:induction false} FixedFieldIs(lo: nat, hi: nat, row: nat, rnd: nat -> nat, k: nat)
    requires hi == 0 || lo == hi
    ensures var s := FieldText(Str(lo, hi), row, rnd, k);
            && |s| == (if 1 <= lo <= 256 then lo else 256)
            && forall i :: 0 <= i < |s| ==> s[i] == LETTERS[rnd(k + i) % 25]
    ensures RightAligned(FieldText(RowNum(lo, hi), row, rnd, k), lo, row)
    ensures RightAligned(FieldText(Num(lo, hi), row, rnd, k), lo, rnd(k))
  {
    hide FieldText, RightAligned;
    FieldOfWidth(lo, hi, lo, row, rnd, k);
  }

  lemma {:induction false} FieldOfWidth(lo: nat, hi: nat, width: nat, row: nat, rnd: nat -> nat, k: nat)
    requires width == GetWidth(lo, hi, rnd(k))
    ensures var s, k' := FieldText(Str(lo, hi), row, rnd, k), k + WidthDraws(lo, hi);
            && |s| == (if 1 <= width <= 256 then width else 256)
            && forall i :: 0 <= i < |s| ==> s[i] == LETTERS[rnd(k' + i) % 25]
    ensures RightAligned(FieldText(RowNum(lo, hi), row, rnd, k), width, row)
    ensures RightAligned(FieldText(Num(lo, hi), row, rnd, k), width, rnd(k + WidthDraws(lo, hi)))
  {
    hide FieldText, Letters, PadTo, RightAligned, GetWidth, WidthDraws;
    NumberFields(lo, hi, row, rnd, k);
    PaddedRight(width, row);
    PaddedRight(width, rnd(k + WidthDraws(lo, hi)));
    StrField(lo, hi, row, rnd, k);
    LettersAt(StrWidth(width), rnd, k + WidthDraws(lo, hi));
  }

  lemma NumberFields(lo: nat, hi: nat, row: nat, rnd: nat -> nat, k: nat)
    ensures FieldText(RowNum(lo, hi), row, rnd, k) == PadTo(GetWidth(lo, hi, rnd(k)), row)
    ensures FieldText(Num(lo, hi), row, rnd, k) == PadTo(GetWidth(lo, hi, rnd(k)), rnd(k + WidthDraws(lo, hi)))
  {
  }

  /** The digits of a number with blanks before them, if it takes any to reach the width. */
  ghost predicate RightAligned(s: string, width: nat, n: nat) {
    var digits := Decimal(n);
    && |s| == (if width > |digits| then width else |digits|)
    && s[|s| - |digits|..] == digits
    && forall i :: 0 <= i < |s| - |digits| ==> s[i] == ' '
  }

  lemma PaddedRight(width: nat, n: nat)
    ensures RightAligned(PadTo(width, n), width, n)
  {
    hide Decimal;
  }

  lemma {:induction false} WidthIs(lo: nat, hi: nat, d: nat, m: nat, r: nat)
    requires hi != 0 && lo != hi
    requires var gap := if lo < hi then hi - lo else lo - hi; d < gap && r == d + m * gap
    ensures GetWidth(lo, hi, r) == lo + d && WidthDraws(lo, hi) == 1
  {
    var gap := if lo < hi then hi - lo else lo - hi;
    DivModUnique(r, gap, m, d);
    if hi < lo {
      RemainderOfNegative(r, gap);
    }
  }

  lemma RemainderOfNegative(r: nat, gap: nat)
    requires gap > 0
    ensures r % (0 - gap) == r % gap
  {
  }

  /** The lengths that a random string can have: those from the lower bound up to below the upper one,
      but 256 for 0 and for those beyond 256. */
  lemma {:induction false} WidthsOccur(lo: nat, hi: nat, n: nat, row: nat)
    requires lo < hi
    ensures (exists rnd: nat -> nat, k: nat :: |FieldText(Str(lo, hi), row, rnd, k)| == n) <==>
            (1 <= n <= 256 && lo <= n < hi) || (n == 256 && (lo == 0 || hi > 257))
  {
    hide FieldText, GetWidth;
    if (1 <= n <= 256 && lo <= n < hi) || (n == 256 && (lo == 0 || hi > 257)) {
      var d := if lo <= n < hi then n - lo else if lo == 0 then 0 else hi - 1 - lo;
      var rnd := (k: nat) => d;
      FieldIs(lo, hi, d, 0, row, rnd, 0);
      assert |FieldText(Str(lo, hi), row, rnd, 0)| == n;
    }
    forall rnd: nat -> nat, k: nat | |FieldText(Str(lo, hi), row, rnd, k)| == n
      ensures (1 <= n <= 256 && lo <= n < hi) || (n == 256 && (lo == 0 || hi > 257))
    {
      DivMod(rnd(k), hi - lo);
      FieldIs(lo, hi, rnd(k) % (hi - lo), rnd(k) / (hi - lo), row, rnd, k);
    }
  }

  // ----- Widths of numbers

  lemma {:induction false} DecimalGrows(a: nat, b: nat)
    requires a <= b
    ensures |Decimal(a)| <= |Decimal(b)|
  {
    if a >= 10 {
      DecimalGrows(a / 10, b / 10);
    }
  }

  lemma WidthBounds(m: nat, n: nat, r: nat)
    ensures m <= GetWidth(m, n, r) && (0 < n && m <= n ==> GetWidth(m, n, r) <= n)
  {
  }

  lemma PadToLength(width: nat, n: nat)
    ensures |PadTo(width, n)| == if |Decimal(n)| < width then width else |Decimal(n)|
  {
  }

  /** `%m-nn` prints between `m` and `n` characters, whatever the random number. */
  ghost predicate RowNumKeepsPromise(m: nat, n: nat, row: nat) {
    forall rnd: nat -> nat, k: nat :: m <= |FieldText(RowNum(m, n), row, rnd, k)| <= n
  }

  /** It does if and only if the bounds are in order and the row number has no more digits than the
      upper one. */
  lemma {:induction false} RowNumPromiseKept(m: nat, n: nat, row: nat)
    ensures RowNumKeepsPromise(m, n, row) <==> m <= n && |Decimal(row)| <= n
  {
    hide Decimal;
    if m <= n && |Decimal(row)| <= n {
      forall rnd: nat -> nat, k: nat ensures m <= |FieldText(RowNum(m, n), row, rnd, k)| <= n {
        PadToLength(GetWidth(m, n, rnd(k)), row);
      }
    } else {
      var rnd := (k: nat) => 0;
      PadToLength(GetWidth(m, n, rnd(0)), row);
      assert !(m <= |FieldText(RowNum(m, n), row, rnd, 0)| <= n);
    }
  }

  /** `%m-nd` prints between `m` and `n` characters, whatever the random numbers up to `top`. */
  ghost predicate NumKeepsPromise(m: nat, n: nat, top: nat) {
    forall rnd: nat -> nat, row: nat, k: nat ::
      (forall i :: 0 <= i ==> rnd(i) <= top) ==> m <= |FieldText(Num(m, n), row, rnd, k)| <= n
  }

  /** It does if and only if the bounds are in order and the largest random number there is has no
      more digits than the upper one. */
  lemma {:induction false} NumPromiseKept(m: nat, n: nat, top: nat)
    ensures NumKeepsPromise(m, n, top) <==> m <= n && |Decimal(top)| <= n
  {
    hide Decimal, GetWidth, PadTo;
    if m <= n && |Decimal(top)| <= n {
      forall rnd: nat -> nat, row: nat, k: nat | forall i :: 0 <= i ==> rnd(i) <= top
        ensures m <= |FieldText(Num(m, n), row, rnd, k)| <= n
      {
        var v := rnd(k + WidthDraws(m, n));
        WidthBounds(m, n, rnd(k));
        PadToLength(GetWidth(m, n, rnd(k)), v);
        DecimalGrows(v, top);
      }
    } else {
      var rnd := (k: nat) => top;
      WidthBounds(m, n, rnd(0));
      PadToLength(GetWidth(m, n, rnd(0)), top);
      assert !(m <= |FieldText(Num(m, n), 1, rnd, 0)| <= n);
    }
  }

  /** Of a lone width `n` a number has `n` characters if and only if it has `n` digits by itself. */
  lemma {:induction false} LoneWidthOfNumber(n: nat, row: nat, rnd: nat -> nat, k: nat)
    requires n > 0
    ensures |FieldText(RowNum(0, n), row, rnd, k)| == n <==> |Decimal(row)| == n
    ensures |FieldText(Num(0, n), row, rnd, k)| == n <==> |Decimal(rnd(k + 1))| == n
  {
    hide Decimal;
    PadToLength(GetWidth(0, n, rnd(k)), row);
    PadToLength(GetWidth(0, n, rnd(k)), rnd(k + 1));
  }

  /** `%0-5d` with 1234567. */
  lemma NumInstance(row: nat, rnd: nat -> nat, k: nat)
    requires rnd(k + 1) == 1234567
    ensures |FieldText(Num(0, 5), row, rnd, k)| == 7
  {
    hide Decimal, GetWidth, PadTo;
    WidthBounds(0, 5, rnd(k));
    DecimalNext(1234567);
    DecimalNext(123456);
    DecimalNext(12345);
    DecimalNext(1234);
    DecimalNext(123);
    DecimalNext(12);
    DecimalOne(1);
    PadToLength(GetWidth(0, 5, rnd(k)), 1234567);
  }

  lemma DecimalNext(n: nat)
    requires n >= 10
    ensures |Decimal(n)| == |Decimal(n / 10)| + 1
  {
  }

  lemma DecimalOne(n: nat)
    requires n < 10
    ensures |Decimal(n)| == 1
  {
  }
}
