/** C strings and the decimal conversions of the C library, as the rest of the model uses them. */
module CStrings {
  const NUL: char := '\0'

  lemma Assoc<T>(a: seq<T>, b: seq<T>, c: seq<T>)
    ensures (a + b) + c == a + (b + c)
  {
  }

  /** No two of the texts are the same. */
  ghost predicate Distinct(texts: seq<string>) {
    forall i, j :: 0 <= i < j < |texts| ==> texts[i] != texts[j]
  }

  predicate IsDigit(c: char) {
    '0' <= c <= '9'
  }

  predicate AllDigits(s: string) {
    forall i :: 0 <= i < |s| ==> IsDigit(s[i])
  }

  /** The part of `s` before the first `stop`; all of `s` when there is none. */
  function UpTo(s: string, stop: char): (r: string)
    ensures r <= s && stop !in r
    ensures |r| < |s| ==> s[|r|] == stop
  {
    if s == [] || s[0] == stop then [] else [s[0]] + UpTo(s[1..], stop)
  }

  lemma UpToAppend(a: string, b: string, stop: char)
    requires b != [] && b[0] == stop
    ensures UpTo(a + b, stop) == UpTo(a, stop)
  {
    if a == [] {
      assert a + b == b;
    } else {
      assert (a + b)[1..] == a[1..] + b;
    }
  }

  lemma UpToFound(s: string, n: nat, stop: char)
    requires n < |s| && s[n] == stop && stop !in s[..n]
    ensures UpTo(s, stop) == s[..n]
  {
    if n > 0 {
      assert s[0] == s[..n][0] && s[1..][..n - 1] == s[..n][1..];
      UpToFound(s[1..], n - 1, stop);
    }
  }

  lemma {:induction false} UpToAll(s: string, stop: char)
    requires stop !in s
    ensures UpTo(s, stop) == s
  {
    if s != [] {
      UpToAll(s[1..], stop);
    }
  }

  /** How often `c` occurs in `s`. */
  function Count(s: string, c: char): nat {
    if s == [] then 0 else (if s[0] == c then 1 else 0) + Count(s[1..], c)
  }

  lemma CountConcat(a: string, b: string, c: char)
    ensures Count(a + b, c) == Count(a, c) + Count(b, c)
  {
    if a == [] {
      assert a + b == b;
    } else {
      assert (a + b)[1..] == a[1..] + b;
      CountConcat(a[1..], b, c);
    }
  }

  function DigitOf(c: char): (d: nat)
    requires IsDigit(c)
    ensures d < 10
  {
    c as int - '0' as int
  }

  /** The number a string of digits denotes. */
  function Value(s: string): nat
    requires AllDigits(s)
  {
    if s == [] then 0 else Value(s[..|s| - 1]) * 10 + DigitOf(s[|s| - 1])
  }

  /** What `%d` prints for a number that is not negative. */
  function Decimal(n: nat): (s: string)
    ensures s != [] && AllDigits(s)
    ensures Value(s) == n
  {
    var last := [('0' as int + n % 10) as char];
    if n < 10 then
      assert last[..0] == [];
      last
    else
      var s := Decimal(n / 10) + last;
      assert s[..|s| - 1] == Decimal(n / 10);
      s
  }

  /** `n` copies of `c`. */
  function Repeat(c: char, n: nat): (s: string)
    ensures |s| == n && forall i :: 0 <= i < n ==> s[i] == c
  {
    if n == 0 then [] else [c] + Repeat(c, n - 1)
  }

  lemma ValueIgnoresLeadingZeros(n: nat, s: string)
    requires AllDigits(s)
    ensures AllDigits(Repeat('0', n) + s)
    ensures Value(Repeat('0', n) + s) == Value(s)
  {
    var t := Repeat('0', n) + s;
    if s != [] {
      ValueIgnoresLeadingZeros(n, s[..|s| - 1]);
      assert t[..|t| - 1] == Repeat('0', n) + s[..|s| - 1];
    } else if n > 0 {
      ValueIgnoresLeadingZeros(n - 1, s);
      assert t[..|t| - 1] == Repeat('0', n - 1) + s;
    }
  }

  /** The longest prefix of digits. */
  function DigitPrefix(s: string): (r: string)
    ensures r <= s && AllDigits(r)
    ensures |r| < |s| ==> !IsDigit(s[|r|])
  {
    if s == [] || !IsDigit(s[0]) then [] else [s[0]] + DigitPrefix(s[1..])
  }

  predicate IsSpace(c: char) {
    c == ' ' || '\t' <= c <= '\r'
  }

  function SkipSpaces(s: string): string {
    if s != [] && IsSpace(s[0]) then SkipSpaces(s[1..]) else s
  }

  /** `atoi`: optional white space, an optional sign, digits; what follows them is ignored. */
  function Atoi(s: string): int {
    var t := SkipSpaces(s);
    if t != [] && t[0] == '-' then 0 - Value(DigitPrefix(t[1..]))
    else if t != [] && t[0] == '+' then Value(DigitPrefix(t[1..]))
    else Value(DigitPrefix(t))
  }

  lemma AtoiOfDecimal(n: nat)
    ensures Atoi(Decimal(n)) == n
  {
    var s := Decimal(n);
    assert IsDigit(s[0]);
    assert DigitPrefix(s) == s;
  }

  // ----- What the conversions mean

  const DIGITS := "0123456789"

  /** The digits and what each is worth. */
  lemma DigitsAre(d: nat)
    requires d < 10
    ensures IsDigit(DIGITS[d]) && DigitOf(DIGITS[d]) == d && Decimal(d) == [DIGITS[d]]
  {
    assert DIGITS[d] == ('0' as int + d) as char;
  }

  /** A number is read digit by digit. */
  lemma {:induction false} ValueNext(s: string, d: nat)
    requires AllDigits(s) && d < 10
    ensures Value([]) == 0 && AllDigits(s + [DIGITS[d]]) && Value(s + [DIGITS[d]]) == 10 * Value(s) + d
  {
    DigitsAre(d);
    assert (s + [DIGITS[d]])[..|s|] == s;
  }

  /** It is printed without leading zeros. */
  lemma {:induction false} NoLeadingZero(n: nat)
    requires n > 0
    ensures Decimal(n)[0] != '0'
  {
    if n >= 10 {
      NoLeadingZero(n / 10);
    } else {
      DigitsAre(n);
    }
  }

  /** The characters that are white space: blank, tab, newline, vertical tab, form feed, return. */
  const SPACES := " \t\n\U{000B}\U{000C}\r"

  lemma SpacesAre(c: char)
    ensures IsSpace(c) <==> c in SPACES
  {
    assert SPACES == [' ', '\t', '\n', '\U{000B}', '\U{000C}', '\r'];
  }

  lemma {:induction false} SkipsSpaces(blank: string, s: string)
    requires (forall c :: c in blank ==> c in SPACES) && (s != [] ==> s[0] !in SPACES)
    ensures SkipSpaces(blank + s) == s
  {
    var t := blank + s;
    if blank == [] {
      assert t == s;
      if s != [] {
        SpacesAre(s[0]);
      }
    } else {
      assert t[1..] == blank[1..] + s && blank[0] in blank && forall c :: c in blank[1..] ==> c in blank;
      SpacesAre(blank[0]);
      SkipsSpaces(blank[1..], s);
    }
  }

  lemma {:induction false} DigitsOf(s: string, rest: string)
    requires AllDigits(s) && (rest != [] ==> !IsDigit(rest[0]))
    ensures DigitPrefix(s + rest) == s
  {
    if s == [] {
      assert s + rest == rest;
    } else {
      assert (s + rest)[1..] == s[1..] + rest;
      DigitsOf(s[1..], rest);
      assert s == [s[0]] + s[1..];
    }
  }

  /** `atoi`: white space is skipped, a sign counts, and what follows the digits does not. */
  lemma {:induction false} AtoiReads(blank: string, s: string, rest: string)
    requires forall c :: c in blank ==> c in SPACES
    requires s != [] && AllDigits(s) && (rest != [] ==> !IsDigit(rest[0]))
    ensures Atoi(blank + (s + rest)) == Value(s)
    ensures Atoi(blank + ("+" + (s + rest))) == Value(s)
    ensures Atoi(blank + ("-" + (s + rest))) == 0 - Value(s)
  {
    hide Value;
    DigitsOf(s, rest);
    assert (s + rest)[0] == s[0] && IsDigit(s[0]);
    SpacesAre(s[0]);
    assert ("+" + (s + rest))[1..] == s + rest && ("-" + (s + rest))[1..] == s + rest;
    SkipsSpaces(blank, s + rest);
    SkipsSpaces(blank, "+" + (s + rest));
    SkipsSpaces(blank, "-" + (s + rest));
  }

  // ----- Division

  lemma DivMod(k: nat, n: nat)
    requires n > 0
    ensures k == (k / n) * n + k % n && k % n < n
  {
  }

  lemma Distribute(a: int, b: int, n: int)
    ensures (a + b) * n == a * n + b * n
  {
  }

  lemma Monotone(a: int, b: int, n: nat)
    requires a <= b
    ensures a * n <= b * n
  {
    Distribute(a, b - a, n);
  }

  lemma {:induction false} DivModUnique(k: nat, n: nat, q: nat, r: nat)
    requires n > 0 && r < n && k == q * n + r
    ensures k / n == q && k % n == r
  {
    var q', r' := k / n, k % n;
    DivMod(k, n);
    if q' < q {
      Monotone(q' + 1, q, n);
      Distribute(q', 1, n);
    } else if q < q' {
      Monotone(q + 1, q', n);
      Distribute(q, 1, n);
    }
  }

  // ----- Powers of ten

  function Pow10(k: nat): (n: nat)
    ensures n > 0
  {
    if k == 0 then 1 else 10 * Pow10(k - 1)
  }

  lemma {:induction false} ValueBound(s: string)
    requires AllDigits(s)
    ensures Value(s) < Pow10(|s|)
  {
    if s != [] {
      ValueBound(s[..|s| - 1]);
    }
  }

  /** Digits behind others. */
  lemma {:induction false} ValueConcat(a: string, b: string)
    requires AllDigits(a) && AllDigits(b)
    ensures AllDigits(a + b) && Value(a + b) == Value(a) * Pow10(|b|) + Value(b)
    decreases |b|
  {
    if b == [] {
      assert a + b == a;
    } else {
      var init := b[..|b| - 1];
      ValueConcat(a, init);
      assert (a + b)[..|a + b| - 1] == a + init;
      Rearrange(Value(a), Pow10(|init|), Value(init), DigitOf(b[|b| - 1]));
    }
  }

  lemma Rearrange(a: nat, p: nat, b: nat, d: nat)
    ensures (a * p + b) * 10 + d == a * (10 * p) + (b * 10 + d)
  {
  }
}
