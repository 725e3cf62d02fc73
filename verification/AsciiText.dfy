/** An instance of the text operations: ASCII letters have case, ASCII white space is stripped and
    splits words, syllables are Hangul. It shows that the laws are consistent, and it is what the
    concrete examples are computed with. */
module AsciiText {
  import opened Text

  // ---------------------------------------------------------------- case, stripping, syllables

  function AsciiLowerChar(c: char): char {
    if 'A' <= c <= 'Z' then (c as int + 32) as char else c
  }

  function AsciiLower(s: string): (r: string) {
    seq(|s|, i requires 0 <= i < |s| => AsciiLowerChar(s[i]))
  }

  function StripLeft(s: string): string {
    if s != "" && IsSpace(s[0]) then StripLeft(s[1..]) else s
  }

  function StripRight(s: string): string {
    if s != "" && IsSpace(s[|s| - 1]) then StripRight(s[..|s| - 1]) else s
  }

  function AsciiStrip(s: string): string {
    StripRight(StripLeft(s))
  }

  predicate IsSyllable(c: char) {
    '가' <= c <= '힣'
  }

  predicate HasSyllable(s: string) {
    exists i :: 0 <= i < |s| && IsSyllable(s[i])
  }

  lemma {:induction false} StripLeftLaws(s: string)
    ensures StripLeft(AsciiLower(s)) == AsciiLower(StripLeft(s))
    ensures HasSyllable(StripLeft(s)) == HasSyllable(s)
  {
    if s != "" && IsSpace(s[0]) {
      StripLeftLaws(s[1..]);
      assert AsciiLower(s)[1..] == AsciiLower(s[1..]);
      assert forall i :: 0 < i < |s| ==> s[i] == s[1..][i - 1];
    }
  }

  lemma {:induction false} StripRightLaws(s: string)
    ensures StripRight(AsciiLower(s)) == AsciiLower(StripRight(s))
    ensures HasSyllable(StripRight(s)) == HasSyllable(s)
    ensures StripRight(s) <= s
  {
    if s != "" && IsSpace(s[|s| - 1]) {
      StripRightLaws(s[..|s| - 1]);
      assert AsciiLower(s)[..|s| - 1] == AsciiLower(s[..|s| - 1]);
      assert forall i :: 0 <= i < |s| - 1 ==> s[i] == s[..|s| - 1][i];
    }
  }

  lemma {:induction false} StripLeftEnd(s: string)
    ensures StripLeft(s) == "" || !IsSpace(StripLeft(s)[0])
  {
    if s != "" && IsSpace(s[0]) {
      StripLeftEnd(s[1..]);
    }
  }

  lemma {:induction false} StripRightEnd(s: string)
    ensures StripRight(StripRight(s)) == StripRight(s)
  {
    if s != "" && IsSpace(s[|s| - 1]) {
      StripRightEnd(s[..|s| - 1]);
    }
  }

  lemma AsciiStripIdempotent(s: string)
    ensures AsciiStrip(AsciiStrip(s)) == AsciiStrip(s)
  {
    var left := StripLeft(s);
    StripLeftEnd(s);
    StripRightLaws(left);
    StripRightEnd(left);
    assert StripRight(left) != "" ==> StripRight(left)[0] == left[0];
  }

  // ---------------------------------------------------------------- words

  function Finished(word: string): seq<string> {
    if word == "" then [] else [word]
  }

  /** The words of s when `word` has been read of the first. */
  function SplitFrom(word: string, s: string): seq<string>
    decreases s
  {
    if s == "" then Finished(word)
    else if IsSpace(s[0]) then Finished(word) + SplitFrom("", s[1..])
    else SplitFrom(word + [s[0]], s[1..])
  }

  function AsciiWords(s: string): seq<string> {
    SplitFrom("", s)
  }

  lemma {:induction false} SplitsAtSpace(word: string, a: string, c: char, b: string)
    requires IsSpace(c)
    ensures SplitFrom(word, a + ([c] + b)) == SplitFrom(word, a) + SplitFrom("", b)
    decreases a
  {
    var s := a + ([c] + b);
    if a == "" {
      assert s[0] == c && s[1..] == b;
    } else {
      assert s[0] == a[0] && s[1..] == a[1..] + ([c] + b);
      if IsSpace(a[0]) {
        SplitsAtSpace("", a[1..], c, b);
      } else {
        SplitsAtSpace(word + [a[0]], a[1..], c, b);
      }
    }
  }

  lemma {:induction false} StripLeftWords(s: string)
    ensures AsciiWords(StripLeft(s)) == AsciiWords(s)
  {
    if s != "" && IsSpace(s[0]) {
      StripLeftWords(s[1..]);
    }
  }

  lemma {:induction false} StripRightWords(s: string)
    ensures AsciiWords(StripRight(s)) == AsciiWords(s)
  {
    if s != "" && IsSpace(s[|s| - 1]) {
      StripRightWords(s[..|s| - 1]);
      SplitsAtSpace("", s[..|s| - 1], s[|s| - 1], "");
      assert s[..|s| - 1] + ([s[|s| - 1]] + "") == s;
    }
  }

  lemma {:induction false} LowerWords(word: string, s: string)
    ensures SplitFrom(AsciiLower(word), AsciiLower(s)) == Each(AsciiLower, SplitFrom(word, s))
    decreases s
  {
    if s != "" {
      assert AsciiLower(s)[1..] == AsciiLower(s[1..]);
      if IsSpace(s[0]) {
        LowerWords("", s[1..]);
        assert AsciiLower("") == "";
      } else {
        LowerWords(word + [s[0]], s[1..]);
        assert AsciiLower(word + [s[0]]) == AsciiLower(word) + [AsciiLowerChar(s[0])];
      }
    }
  }

  predicate NoSpace(s: string) {
    forall i :: 0 <= i < |s| ==> !IsSpace(s[i])
  }

  lemma {:induction false} WordsAreSolid(word: string, s: string)
    requires NoSpace(word)
    ensures forall i :: 0 <= i < |SplitFrom(word, s)| ==> SplitFrom(word, s)[i] != "" && NoSpace(SplitFrom(word, s)[i])
    decreases s
  {
    if s != "" {
      WordsAreSolid(if IsSpace(s[0]) then "" else word + [s[0]], s[1..]);
    }
  }

  lemma {:induction false} FoundInWord(word: string, s: string, part: string)
    requires part != "" && NoSpace(part)
    ensures Contains(word + s, part) <==> InSomeWord(SplitFrom(word, s), part)
    decreases s
  {
    if s == "" {
      assert word + s == word;
      OneFinished(word, part);
    } else if IsSpace(s[0]) {
      assert word + s == word + ([s[0]] + s[1..]) && "" + s[1..] == s[1..];
      ContainsAcross(word, s[0], s[1..], part);
      FoundInWord("", s[1..], part);
      OneFinished(word, part);
      InEither(Finished(word), SplitFrom("", s[1..]), part);
    } else {
      assert word + s == (word + [s[0]]) + s[1..];
      FoundInWord(word + [s[0]], s[1..], part);
    }
  }

  lemma OneFinished(word: string, part: string)
    requires part != ""
    ensures Contains(word, part) <==> InSomeWord(Finished(word), part)
  {
    if word != "" {
      assert Finished(word)[0] == word;
    }
  }

  lemma InEither(a: seq<string>, b: seq<string>, part: string)
    ensures InSomeWord(a + b, part) <==> InSomeWord(a, part) || InSomeWord(b, part)
  {
    if i :| 0 <= i < |a| && Contains(a[i], part) {
      assert (a + b)[i] == a[i];
    }
    if i :| 0 <= i < |b| && Contains(b[i], part) {
      assert (a + b)[|a| + i] == b[i];
    }
  }

  // ---------------------------------------------------------------- the instance

  const ASCII: TextOps := TextOps(AsciiLower, AsciiStrip, AsciiWords, HasSyllable)

  /** The laws are consistent: the ASCII instance satisfies them. */
  lemma AsciiLaws()
    ensures TextLaws(ASCII)
  {
    forall s: string
      ensures AsciiStrip(AsciiStrip(s)) == AsciiStrip(s)
      ensures AsciiLower(AsciiLower(s)) == AsciiLower(s)
      ensures AsciiStrip(AsciiLower(s)) == AsciiLower(AsciiStrip(s))
      ensures HasSyllable(AsciiStrip(s)) == HasSyllable(s)
      ensures PlainWord(s) ==> AsciiLower(s) == s && AsciiStrip(s) == s
    {
      StripLeftLaws(s);
      StripRightLaws(StripLeft(s));
      AsciiStripIdempotent(s);
    }
  }

  lemma AsciiWordLaws()
    ensures WordLaws(ASCII)
  {
    forall s: string
      ensures AsciiWords(AsciiStrip(s)) == AsciiWords(s)
    {
      StripLeftWords(s);
      StripRightWords(StripLeft(s));
    }
    forall a: string, b: string
      ensures AsciiWords(a + (" " + b)) == AsciiWords(a) + AsciiWords(b)
    {
      SplitsAtSpace("", a, ' ', b);
    }
    forall a: string, b: string | AsciiWords(a) == AsciiWords(b)
      ensures AsciiWords(AsciiLower(a)) == AsciiWords(AsciiLower(b))
    {
      assert AsciiLower("") == "";
      LowerWords("", a);
      LowerWords("", b);
    }
    forall s: string, m: string | OneWord(ASCII, m)
      ensures Contains(s, m) <==> InSomeWord(AsciiWords(s), m)
    {
      WordsAreSolid("", m);
      assert AsciiWords(m)[0] == m;
      FoundInWord("", s, m);
      assert "" + s == s;
    }
  }

  /** The texts of the concrete findings. */
  lemma KoreanTexts()
    ensures AsciiStrip("가") == "가" && AsciiStrip("나") == "나" && HasSyllable("가") && HasSyllable("나")
  {
  }
}
