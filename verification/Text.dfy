/** Strings as the service sees them: decimal numerals, joining, substring search, and the
    case and whitespace operations the checks rely on. */
module Text {

  datatype Option<+T> = None | Some(value: T)

  // ---------------------------------------------------------------- numerals

  predicate IsDigit(c: char) {
    '0' <= c <= '9'
  }

  predicate AllDigits(s: string) {
    forall i :: 0 <= i < |s| ==> IsDigit(s[i])
  }

  function DigitValue(c: char): nat {
    if IsDigit(c) then c as int - '0' as int else 0
  }

  function DigitChar(d: nat): (c: char)
    requires d < 10
    ensures IsDigit(c) && DigitValue(c) == d
  {
    ('0' as int + d) as char
  }

  /** The decimal numeral of a natural number, as an f-string writes it. */
  function Decimal(n: nat): string {
    if n < 10 then [DigitChar(n)] else Decimal(n / 10) + [DigitChar(n % 10)]
  }

  /** The numeral of an integer: a sign only when it is negative. */
  function Numeral(n: int): string {
    if n < 0 then "-" + Decimal(-n) else Decimal(n)
  }

  /** int(...) on a string of digits. */
  function ParseDecimal(s: string): nat {
    if s == "" then 0 else ParseDecimal(s[..|s| - 1]) * 10 + DigitValue(s[|s| - 1])
  }

  lemma {:induction false} DecimalDigits(n: nat)
    ensures Decimal(n) != "" && AllDigits(Decimal(n))
  {
    if n >= 10 {
      DecimalDigits(n / 10);
    }
  }

  lemma {:induction false} DecimalRoundTrip(n: nat)
    ensures ParseDecimal(Decimal(n)) == n
  {
    if n >= 10 {
      DecimalRoundTrip(n / 10);
      assert Decimal(n)[..|Decimal(n)| - 1] == Decimal(n / 10);
    }
  }

  lemma DecimalInjective(m: nat, n: nat)
    requires Decimal(m) == Decimal(n)
    ensures m == n
  {
    DecimalRoundTrip(m);
    DecimalRoundTrip(n);
  }

  lemma NumeralSign(n: int)
    ensures Numeral(n) != "" && (Numeral(n)[0] == '-' <==> n < 0)
    ensures n < 0 ==> Numeral(n)[1..] == Decimal(-n)
  {
    DecimalDigits(if n < 0 then -n else n);
  }

  lemma NumeralInjective(m: int, n: int)
    requires Numeral(m) == Numeral(n)
    ensures m == n
  {
    NumeralSign(m);
    NumeralSign(n);
    if m < 0 {
      DecimalInjective(-m, -n);
    } else {
      DecimalInjective(m, n);
    }
  }

  // ---------------------------------------------------------------- joining and searching

  function Join(separator: string, parts: seq<string>): string {
    if parts == [] then ""
    else if |parts| == 1 then parts[0]
    else parts[0] + separator + Join(separator, parts[1..])
  }

  /** str.splitlines for text whose only line separator is the newline: a final newline does not
      open another line. */
  function SplitLines(text: string): seq<string> {
    if text == "" then []
    else
      var line := FirstLine(text);
      if |line| == |text| then [line] else [line] + SplitLines(text[|line| + 1..])
  }

  function FirstLine(text: string): (line: string)
    ensures line <= text
    ensures '\n' !in line
    ensures |line| < |text| ==> text[|line|] == '\n'
  {
    if text == "" || text[0] == '\n' then "" else [text[0]] + FirstLine(text[1..])
  }

  predicate IsLine(line: string) {
    line != "" && '\n' !in line
  }

  lemma {:induction false} FirstLineIs(line: string, rest: string)
    requires '\n' !in line && (rest == "" || rest[0] == '\n')
    ensures FirstLine(line + rest) == line
  {
    if line == "" {
      assert line + rest == rest;
    } else {
      FirstLineIs(line[1..], rest);
      assert (line + rest)[1..] == line[1..] + rest;
    }
  }

  /** Joining non-empty lines with newlines and splitting again gives the same lines. */
  lemma {:induction false} SplitJoin(lines: seq<string>)
    requires forall l :: l in lines ==> IsLine(l)
    ensures SplitLines(Join("\n", lines)) == lines
  {
    if lines != [] {
      assert IsLine(lines[0]);
    }
    if |lines| == 1 {
      FirstLineIs(lines[0], "");
      assert lines[0] + "" == lines[0];
    } else if |lines| > 1 {
      var rest := "\n" + Join("\n", lines[1..]);
      FirstLineIs(lines[0], rest);
      assert Join("\n", lines) == lines[0] + rest;
      assert (lines[0] + rest)[|lines[0]| + 1..] == Join("\n", lines[1..]);
      SplitJoin(lines[1..]);
    }
  }

  predicate OccursAt(text: string, part: string, i: int) {
    0 <= i <= |text| - |part| && text[i..i + |part|] == part
  }

  /** Python's `part in text`. */
  predicate Contains(text: string, part: string) {
    exists i :: 0 <= i <= |text| && OccursAt(text, part, i)
  }

  lemma ContainsAt(prefix: string, part: string, suffix: string)
    ensures Contains(prefix + part + suffix, part)
  {
    assert OccursAt(prefix + part + suffix, part, |prefix|);
  }

  /** A list comprehension: f of every element. */
  function Each<A, B>(f: A -> B, s: seq<A>): (r: seq<B>)
    ensures |r| == |s|
  {
    seq(|s|, i requires 0 <= i < |s| => f(s[i]))
  }

  lemma FirstCharMissing(text: string, part: string)
    requires part != "" && part[0] !in text
    ensures !Contains(text, part)
  {
  }

  /** An occurrence of what does not hold a character lies on one side of that character. */
  lemma OccursAcross(first: string, c: char, rest: string, part: string, i: int)
    requires part != "" && c !in part
    ensures OccursAt(first + ([c] + rest), part, i)
       <==> OccursAt(first, part, i) || OccursAt(rest, part, i - |first| - 1)
  {
    var text, n := first + ([c] + rest), |first|;
    assert text[n] == c;
    if 0 <= i && i + |part| <= n {
      assert text[i..i + |part|] == first[i..i + |part|];
    } else if n < i && i + |part| <= |text| {
      assert text[i..i + |part|] == rest[i - n - 1..i - n - 1 + |part|];
    } else if 0 <= i && i + |part| <= |text| {
      assert text[i..i + |part|][n - i] == c;
    }
  }

  lemma ContainsAcross(first: string, c: char, rest: string, part: string)
    requires part != "" && c !in part
    ensures Contains(first + ([c] + rest), part) <==> Contains(first, part) || Contains(rest, part)
  {
    var text, n := first + ([c] + rest), |first|;
    if i :| 0 <= i <= |text| && OccursAt(text, part, i) {
      OccursAcross(first, c, rest, part, i);
    }
    if i :| 0 <= i <= |first| && OccursAt(first, part, i) {
      OccursAcross(first, c, rest, part, i);
    }
    if i :| 0 <= i <= |rest| && OccursAt(rest, part, i) {
      OccursAcross(first, c, rest, part, n + 1 + i);
    }
  }

  lemma {:induction false} JoinContains(separator: string, parts: seq<string>, i: nat)
    requires i < |parts|
    ensures Contains(Join(separator, parts), parts[i])
  {
    if |parts| == 1 {
      ContainsAt("", parts[0], "");
      assert "" + parts[0] + "" == parts[0];
    } else if i == 0 {
      ContainsAt("", parts[0], separator + Join(separator, parts[1..]));
      assert "" + parts[0] + (separator + Join(separator, parts[1..])) == Join(separator, parts);
    } else {
      JoinContains(separator, parts[1..], i - 1);
      var rest := Join(separator, parts[1..]);
      var j :| 0 <= j <= |rest| && OccursAt(rest, parts[i], j);
      var before := parts[0] + separator;
      assert Join(separator, parts) == before + rest;
      assert (before + rest)[|before| + j..|before| + j + |parts[i]|] == rest[j..j + |parts[i]|];
      assert OccursAt(Join(separator, parts), parts[i], |before| + j);
    }
  }

  lemma ContainsThrough(text: string, middle: string, part: string)
    requires Contains(text, middle) && Contains(middle, part)
    ensures Contains(text, part)
  {
    var i :| 0 <= i <= |text| && OccursAt(text, middle, i);
    var j :| 0 <= j <= |middle| && OccursAt(middle, part, j);
    var found := text[i..i + |middle|];
    assert forall x :: 0 <= x < |middle| ==> found[x] == middle[x] == text[i + x];
    assert text[i + j..i + j + |part|] == middle[j..j + |part|];
    assert OccursAt(text, part, i + j);
  }

  predicate StartsWith(s: string, prefix: string) {
    prefix <= s
  }

  // ---------------------------------------------------------------- ordering

  /** Python compares strings by code point, left to right. */
  predicate StringLeq(a: string, b: string) {
    a == "" || (b != "" && (a[0] < b[0] || (a[0] == b[0] && StringLeq(a[1..], b[1..]))))
  }

  lemma Regroup<T>(a: seq<T>, b: seq<T>, c: seq<T>)
    ensures (a + b) + c == a + (b + c)
  {
  }

  /** The order of the alphabet: a is a beginning of b, or has the smaller character where they first
      differ. */
  ghost predicate FirstInAlphabet(a: string, b: string) {
    a <= b || exists k :: 0 <= k < |a| && k < |b| && a[..k] == b[..k] && a[k] < b[k]
  }

  lemma {:induction false} StringLeqMeans(a: string, b: string)
    ensures StringLeq(a, b) <==> FirstInAlphabet(a, b)
  {
    if a != "" && b != "" {
      StringLeqMeans(a[1..], b[1..]);
      FirstGoesOn(a, b);
      FirstGoesBack(a, b);
    }
  }

  lemma FirstGoesOn(a: string, b: string)
    requires a != "" && b != ""
    ensures a[0] < b[0] || (a[0] == b[0] && FirstInAlphabet(a[1..], b[1..])) ==> FirstInAlphabet(a, b)
  {
    if a[0] < b[0] {
      assert a[..0] == b[..0];
    } else if a[0] == b[0] && a[1..] <= b[1..] {
      assert a == [a[0]] + a[1..] && b == [b[0]] + b[1..];
    } else if a[0] == b[0] && FirstInAlphabet(a[1..], b[1..]) {
      var k :| 0 <= k < |a[1..]| && k < |b[1..]| && a[1..][..k] == b[1..][..k] && a[1..][k] < b[1..][k];
      assert a[..k + 1] == [a[0]] + a[1..][..k] && b[..k + 1] == [b[0]] + b[1..][..k];
      assert a[k + 1] < b[k + 1];
    }
  }

  lemma FirstGoesBack(a: string, b: string)
    requires a != "" && b != ""
    ensures FirstInAlphabet(a, b) ==> a[0] < b[0] || (a[0] == b[0] && FirstInAlphabet(a[1..], b[1..]))
  {
    if a <= b {
      assert a[1..] == b[..|a|][1..] == b[1..][..|a| - 1];
    } else if FirstInAlphabet(a, b) {
      var k :| 0 <= k < |a| && k < |b| && a[..k] == b[..k] && a[k] < b[k];
      if k > 0 {
        assert a[0] == a[..k][0] == b[..k][0] == b[0];
        assert a[1..][..k - 1] == a[..k][1..] == b[..k][1..] == b[1..][..k - 1];
        assert a[1..][k - 1] < b[1..][k - 1];
      }
    }
  }

  lemma {:induction false} StringLeqTotal(a: string, b: string)
    ensures StringLeq(a, b) || StringLeq(b, a)
  {
    if a != "" && b != "" {
      StringLeqTotal(a[1..], b[1..]);
    }
  }

  lemma {:induction false} StringLeqTransitive(a: string, b: string, c: string)
    requires StringLeq(a, b) && StringLeq(b, c)
    ensures StringLeq(a, c)
  {
    if a != "" && a[0] == b[0] == c[0] {
      StringLeqTransitive(a[1..], b[1..], c[1..]);
    }
  }

  lemma {:induction false} StringLeqAntisymmetric(a: string, b: string)
    requires StringLeq(a, b) && StringLeq(b, a)
    ensures a == b
  {
    if a != "" {
      StringLeqAntisymmetric(a[1..], b[1..]);
    }
  }

  // ---------------------------------------------------------------- case, whitespace, Hangul

  /** The ASCII white space. */
  predicate IsSpace(c: char) {
    c == ' ' || c == '\t' || c == '\n' || c == '\r'
  }

  /** The Unicode operations of `str` that the service uses. Their tables are not modelled; the
      laws below are all that any proof uses. */
  datatype TextOps = TextOps(
    lower: string -> string,
    strip: string -> string,
    words: string -> seq<string>,
    hangul: string -> bool)

  predicate PlainWord(s: string) {
    forall i :: 0 <= i < |s| ==> 'a' <= s[i] <= 'z'
  }

  ghost predicate TextLaws(t: TextOps) {
    && (forall s: string :: t.strip(t.strip(s)) == t.strip(s))
    && (forall s: string :: t.lower(t.lower(s)) == t.lower(s))
    && (forall s: string :: t.strip(t.lower(s)) == t.lower(t.strip(s)))
    && (forall s: string :: t.hangul(t.strip(s)) == t.hangul(s))
    && (forall s: string :: PlainWord(s) ==> t.lower(s) == s && t.strip(s) == s)
  }

  /** A marker without white space: splitting leaves it whole. */
  predicate OneWord(t: TextOps, s: string) {
    t.words(s) == [s]
  }

  predicate InSomeWord(words: seq<string>, part: string) {
    exists i :: 0 <= i < |words| && Contains(words[i], part)
  }

  /** Splitting at white space: the ends do not matter, a blank always splits, letter case does not
      move a boundary, and what has no white space can only be found within a word. */
  ghost predicate WordLaws(t: TextOps) {
    && (forall s: string :: t.words(t.strip(s)) == t.words(s))
    && (forall a: string, b: string :: t.words(a + (" " + b)) == t.words(a) + t.words(b))
    && (forall a: string, b: string :: t.words(a) == t.words(b) ==> t.words(t.lower(a)) == t.words(t.lower(b)))
    && (forall s: string, m: string :: OneWord(t, m) ==> (Contains(s, m) <==> InSomeWord(t.words(s), m)))
  }
}
