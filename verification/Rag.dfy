/** rag.py: policy chunks are ranked by lexical overlap, and policy documents are cut into chunks;
    with the two retrieval stages of review_graph.py. */
module Rag {
  import opened Text
  import opened Schemas
  import opened Sorting
  import opened Lists

  const REPOSITORY_POLICY_PATH := ".github/ai-review-policy.md"

  // ---------------------------------------------------------------- ranking

  /** Tokenising, the quotient of overlap and square root, and rounding; only that they are
      functions matters here. */
  datatype Scoring = Scoring(tokens: string -> set<string>, weight: (nat, nat) -> real, rounded: real -> real)

  /** The words a request asks about and the policy types it is filtered to, none meaning all. */
  datatype Query = Query(words: set<string>, types: set<string>)

  function ChunkTokens(sc: Scoring, chunk: PolicyChunk): set<string> {
    sc.tokens(chunk.sourcePath + " " + chunk.sectionTitle + " " + chunk.content)
  }

  /** The chunk with its score for the query, unless its type or its words do not fit. */
  function Scored(sc: Scoring, q: Query, chunk: PolicyChunk): Option<PolicyChunk> {
    var isRepositoryPolicy := chunk.sourcePath == REPOSITORY_POLICY_PATH;
    if q.types != {} && chunk.policyType !in q.types && !isRepositoryPolicy then None
    else
      var words := ChunkTokens(sc, chunk);
      var overlap := q.words * words;
      if overlap == {} then None
      else
        var base := sc.weight(|overlap|, if |words| == 0 then 1 else |words|);
        Some(chunk.(score := sc.rounded(if isRepositoryPolicy then base + 10.0 else base)))
  }

  function Scorer(sc: Scoring, q: Query): PolicyChunk -> Option<PolicyChunk> {
    (chunk: PolicyChunk) => Scored(sc, q, chunk)
  }

  /** sorted(key=score, reverse=True). */
  predicate ByScore(a: PolicyChunk, b: PolicyChunk) {
    a.score >= b.score
  }

  function Ranked(sc: Scoring, q: Query, chunks: seq<PolicyChunk>, topK: nat): seq<PolicyChunk> {
    Take(StableSort(ByScore, Passing(Scorer(sc, q), chunks)), topK)
  }

  method RankPolicyChunks(sc: Scoring, q: Query, chunks: seq<PolicyChunk>, topK: nat) returns (ranked: seq<PolicyChunk>)
    ensures ranked == Ranked(sc, q, chunks, topK)
  {
    if chunks == [] {
      return [];
    }
    var scored: seq<PolicyChunk> := [];
    for i := 0 to |chunks|
      invariant scored == Passing(Scorer(sc, q), chunks[..i])
    {
      assert chunks[..i + 1][..i] == chunks[..i];
      var chunk := chunks[i];
      var isRepositoryPolicy := chunk.sourcePath == REPOSITORY_POLICY_PATH;
      if q.types != {} && chunk.policyType !in q.types && !isRepositoryPolicy {
        continue;
      }
      var words := ChunkTokens(sc, chunk);
      var overlap := q.words * words;
      if overlap == {} {
        continue;
      }
      var score := sc.weight(|overlap|, if |words| == 0 then 1 else |words|);
      if isRepositoryPolicy {
        score := score + 10.0;
      }
      scored := scored + [chunk.(score := sc.rounded(score))];
    }
    assert chunks[..|chunks|] == chunks;
    if scored == [] {
      return [];
    }
    ranked := Take(StableSort(ByScore, scored), topK);
  }

  lemma ByScoreIsPreorder()
    ensures TotalPreorder(ByScore)
  {
  }

  /** Scores are computed from everything but the old score, so scoring again changes nothing. */
  lemma ScoredTwice(sc: Scoring, q: Query, chunk: PolicyChunk)
    requires Scored(sc, q, chunk).Some?
    ensures Scored(sc, q, Scored(sc, q, chunk).value) == Scored(sc, q, chunk)
  {
  }

  lemma RankedIsScored(sc: Scoring, q: Query, chunks: seq<PolicyChunk>, topK: nat)
    ensures Passing(Scorer(sc, q), Ranked(sc, q, chunks, topK)) == Ranked(sc, q, chunks, topK)
  {
    var scored := Passing(Scorer(sc, q), chunks);
    SortPermutes(ByScore, scored);
    SameElements(StableSort(ByScore, scored), scored);
    forall c | c in Ranked(sc, q, chunks, topK)
      ensures Scorer(sc, q)(c) == Some(c)
    {
      PassingSource(Scorer(sc, q), chunks, c);
      var o :| o in chunks && Scorer(sc, q)(o) == Some(c);
      ScoredTwice(sc, q, o);
    }
    PassingFixed(Scorer(sc, q), Ranked(sc, q, chunks, topK));
  }

  /** _retrieve_policies: the index is ranked first, and its best are ranked again together with the
      policies that came with the request. */
  function RetrievedPolicies(sc: Scoring, q: Query, repository: seq<PolicyChunk>, indexed: seq<PolicyChunk>, topK: nat)
    : seq<PolicyChunk>
  {
    Ranked(sc, q, repository + Ranked(sc, q, indexed, topK), topK)
  }

  /** Retrieval in two stages loses nothing: it returns exactly the list, in exactly the order, that
      ranking everything at once returns. */
  lemma TwoStagesLoseNothing(sc: Scoring, q: Query, repository: seq<PolicyChunk>, indexed: seq<PolicyChunk>, topK: nat)
    ensures RetrievedPolicies(sc, q, repository, indexed, topK) == Ranked(sc, q, repository + indexed, topK)
  {
    var scorer := Scorer(sc, q);
    RankedIsScored(sc, q, indexed, topK);
    PassingConcat(scorer, repository, Ranked(sc, q, indexed, topK));
    PassingConcat(scorer, repository, indexed);
    ByScoreIsPreorder();
    TwoStageTopK(ByScore, Passing(scorer, repository), Passing(scorer, indexed), topK);
  }

  /** The eight best of the repository's policies and the whole index, though the index is searched
      only for its own eight best. */
  method RetrievePolicies(sc: Scoring, q: Query, repository: seq<PolicyChunk>, indexed: seq<PolicyChunk>)
    returns (policies: seq<PolicyChunk>)
    ensures policies == Ranked(sc, q, repository + indexed, 8)
  {
    var found := RankPolicyChunks(sc, q, indexed, 8);
    policies := RankPolicyChunks(sc, q, repository + found, 8);
    TwoStagesLoseNothing(sc, q, repository, indexed, 8);
  }

  /** What is returned is best: no fitting chunk that is left out scores higher than a returned one,
      equal scores keep their order, and fewer than topK are returned only when no more fit. */
  lemma RankedAreBest(sc: Scoring, q: Query, chunks: seq<PolicyChunk>, topK: nat)
    ensures var fitting, ranked := Passing(Scorer(sc, q), chunks), Ranked(sc, q, chunks, topK);
            var left := StableSort(ByScore, fitting)[|ranked|..];
            && multiset(ranked + left) == multiset(fitting)
            && Sorted(ByScore, ranked + left) && SameClasses(ByScore, ranked + left, fitting)
            && |ranked| <= topK && (left != [] ==> |ranked| == topK)
  {
    ByScoreIsPreorder();
    TakeBest(ByScore, Passing(Scorer(sc, q), chunks), topK);
  }

  // ---------------------------------------------------------------- what the scores come to

  /** The path that the service reads a repository's own policy from. */
  predicate OfRepository(chunk: PolicyChunk) {
    chunk.sourcePath == ".github/ai-review-policy.md"
  }

  function WordsOf(sc: Scoring, chunk: PolicyChunk): set<string> {
    sc.tokens(chunk.sourcePath + " " + chunk.sectionTitle + " " + chunk.content)
  }

  /** A chunk fits a query if and only if it shares a word with it and is of an asked type, or no type is
      asked for, or it is of the repository's own policy. Only its score is set. */
  lemma FitsExactly(sc: Scoring, q: Query, chunk: PolicyChunk)
    ensures Scored(sc, q, chunk).Some?
       <==> && (q.types == {} || chunk.policyType in q.types || OfRepository(chunk))
            && exists w :: w in q.words && w in WordsOf(sc, chunk)
    ensures Scored(sc, q, chunk).Some? ==>
              Scored(sc, q, chunk).value == chunk.(score := Scored(sc, q, chunk).value.score)
  {
    if w :| w in q.words && w in WordsOf(sc, chunk) {
      assert w in q.words * WordsOf(sc, chunk);
    }
  }

  /** The weight is the number of shared words by the root of the number of words, to four places. */
  ghost predicate ScoringLaws(sc: Scoring) {
    && (forall k: nat, n: nat :: n > 0 ==>
          sc.weight(k, n) >= 0.0 && sc.weight(k, n) * sc.weight(k, n) * n as real == (k * k) as real)
    && (forall x: real, y: real :: x <= y ==> sc.rounded(x) <= sc.rounded(y))
    && (forall x: real :: x - 0.00005 <= sc.rounded(x) <= x + 0.00005)
  }

  ghost predicate ScoreIs(sc: Scoring, q: Query, chunk: PolicyChunk, shared: nat, words: nat) {
    && shared == |set w | w in q.words && w in WordsOf(sc, chunk)| && words == |WordsOf(sc, chunk)|
    && 0 < shared <= words
    && Scored(sc, q, chunk)
       == Some(chunk.(score := sc.rounded(sc.weight(shared, words) + if OfRepository(chunk) then 10.0 else 0.0)))
  }

  lemma ScoreOfFitting(sc: Scoring, q: Query, chunk: PolicyChunk) returns (shared: nat, words: nat)
    requires Scored(sc, q, chunk).Some?
    ensures ScoreIs(sc, q, chunk, shared, words)
  {
    var all := WordsOf(sc, chunk);
    var both := set w | w in q.words && w in all;
    assert q.words * all == both;
    assert both <= all;
    SubsetIsSmaller(both, all);
    shared, words := |both|, |all|;
  }

  lemma {:induction false} SubsetIsSmaller<T>(a: set<T>, b: set<T>)
    requires a <= b
    ensures |a| <= |b|
    decreases a
  {
    if a != {} {
      var x :| x in a;
      SubsetIsSmaller(a - {x}, b - {x});
    }
  }

  /** What is returned scores no less than any fitting chunk that is left out, and the higher scores come
      first. */
  lemma RankedByScore(sc: Scoring, q: Query, chunks: seq<PolicyChunk>, topK: nat)
    ensures var ranked := Ranked(sc, q, chunks, topK);
            && (forall i, j :: 0 <= i < j < |ranked| ==> ranked[i].score >= ranked[j].score)
            && (forall c :: c in ranked ==> exists o :: o in chunks && Scored(sc, q, o) == Some(c))
            && (forall kept, o | kept in ranked && o in chunks && Scored(sc, q, o).Some?
                                 && Scored(sc, q, o).value !in ranked
                  :: |ranked| == topK && kept.score >= Scored(sc, q, o).value.score)
  {
    var fitting, ranked := Passing(Scorer(sc, q), chunks), Ranked(sc, q, chunks, topK);
    ByScoreIsPreorder();
    SortSorted(ByScore, fitting);
    SortPermutes(ByScore, fitting);
    SameElements(StableSort(ByScore, fitting), fitting);
    forall c | c in ranked
      ensures exists o :: o in chunks && Scored(sc, q, o) == Some(c)
    {
      PassingSource(Scorer(sc, q), chunks, c);
    }
    forall kept, o | kept in ranked && o in chunks && Scored(sc, q, o).Some? && Scored(sc, q, o).value !in ranked
      ensures |ranked| == topK && kept.score >= Scored(sc, q, o).value.score
    {
      PassingHas(Scorer(sc, q), chunks, o);
      KeptBeforeCut(ByScore, fitting, topK, kept, Scored(sc, q, o).value);
    }
  }

  lemma WeightAtMost(sc: Scoring, shared: nat, words: nat, limit: real)
    requires ScoringLaws(sc) && 0 < words && limit >= 0.0
    requires (shared * shared) as real <= limit * limit * words as real
    ensures sc.weight(shared, words) <= limit
  {
    var w, n := sc.weight(shared, words), words as real;
    if w > limit {
      Squares(limit, w, n);
    }
  }

  lemma Squares(a: real, b: real, n: real)
    requires 0.0 <= a < b && n > 0.0
    ensures a * a * n < b * b * n
  {
    assert a * (b - a) >= 0.0 && (b - a) * b > 0.0;
    assert b * b - a * a == (b - a) * b + a * (b - a);
    assert (b * b - a * a) * n > 0.0;
    assert (b * b - a * a) * n == b * b * n - a * a * n;
  }

  lemma WeightMoreThan(sc: Scoring, shared: nat, words: nat, limit: real)
    requires ScoringLaws(sc) && 0 < words && limit >= 0.0
    requires (shared * shared) as real > limit * limit * words as real
    ensures sc.weight(shared, words) > limit
  {
    var w, n := sc.weight(shared, words), words as real;
    if w < limit {
      Squares(w, limit, n);
    }
  }

  /** A chunk of the repository's own policy that fits is never behind another chunk of at most a hundred
      words. */
  lemma RepositoryComesFirst(sc: Scoring, q: Query, own: PolicyChunk, other: PolicyChunk)
    requires ScoringLaws(sc) && Scored(sc, q, own).Some? && Scored(sc, q, other).Some?
    requires OfRepository(own) && !OfRepository(other) && |WordsOf(sc, other)| <= 100
    ensures Scored(sc, q, own).value.score >= Scored(sc, q, other).value.score
  {
    var shared, words := ScoreOfFitting(sc, q, other);
    var ownShared, ownWords := ScoreOfFitting(sc, q, own);
    AtMostTen(shared, words);
    WeightAtMost(sc, shared, words, 10.0);
    assert sc.weight(shared, words) + 0.0 <= sc.weight(ownShared, ownWords) + 10.0;
  }

  lemma AtMostTen(shared: nat, words: nat)
    requires shared <= words <= 100
    ensures (shared * shared) as real <= 10.0 * 10.0 * words as real
  {
    ProductsGrow(shared, words, words);
    ProductsGrow(words, 100, words);
    assert shared * shared <= 100 * words by {
      ProductsGrow(shared, words, shared);
    }
    assert (shared * shared) as real <= (100 * words) as real == 100.0 * words as real;
  }

  lemma ProductsGrow(m: nat, n: nat, k: nat)
    requires m <= n
    ensures m * k <= n * k && k * m <= k * n
  {
  }

  /** The bonus of ten is not enough for longer ones: a query with all 122 or more words of another chunk
      puts it before a chunk of the repository's policy that has one of its words. */
  lemma RepositoryCanBeOutranked(sc: Scoring, q: Query, own: PolicyChunk, other: PolicyChunk)
    requires ScoringLaws(sc) && OfRepository(own) && !OfRepository(other)
    requires q.types == {} || other.policyType in q.types
    requires WordsOf(sc, other) <= q.words && |WordsOf(sc, other)| >= 122
    requires |set w | w in q.words && w in WordsOf(sc, own)| == 1
    ensures Scored(sc, q, own).Some? && Scored(sc, q, other).Some?
    ensures Scored(sc, q, own).value.score < Scored(sc, q, other).value.score
  {
    var w :| w in WordsOf(sc, other);
    var one := set w | w in q.words && w in WordsOf(sc, own);
    var v :| v in one;
    FitsExactly(sc, q, other);
    FitsExactly(sc, q, own);
    var shared, words := ScoreOfFitting(sc, q, other);
    assert (set w | w in q.words && w in WordsOf(sc, other)) == WordsOf(sc, other);
    MoreThanEleven(words);
    WeightMoreThan(sc, shared, words, 11.01);
    var ownShared, ownWords := ScoreOfFitting(sc, q, own);
    WeightAtMost(sc, 1, ownWords, 1.0);
  }

  lemma MoreThanEleven(words: nat)
    requires words >= 122
    ensures (words * words) as real > 11.01 * 11.01 * words as real
  {
    ProductsGrow(122, words, words);
    assert (words * words) as real >= (122 * words) as real == 122.0 * words as real;
  }

  // ---------------------------------------------------------------- cutting documents

  /** A heading's title, or the file name, and the lines up to the next heading. */
  datatype Section = Section(title: string, lines: seq<string>)

  const NON_NORMATIVE_SECTION_TITLES: set<string> := {"적용 범위", "scope", "overview"}

  predicate IsHeading(line: string) {
    line != "" && line[0] == '#'
  }

  function WithoutHashes(line: string): string {
    if IsHeading(line) then WithoutHashes(line[1..]) else line
  }

  function HeadingTitle(t: TextOps, line: string, fileName: string): string {
    var title := t.strip(WithoutHashes(line));
    if title == "" then fileName else title
  }

  /** The sections still to come when `open` is being collected. */
  function SectionsFrom(t: TextOps, lines: seq<string>, open: Section, fileName: string): seq<Section>
    decreases lines
  {
    if lines == [] then [open]
    else if IsHeading(lines[0]) then
      [open] + SectionsFrom(t, lines[1..], Section(HeadingTitle(t, lines[0], fileName), []), fileName)
    else SectionsFrom(t, lines[1..], open.(lines := open.lines + [lines[0]]), fileName)
  }

  function SectionText(t: TextOps, s: Section): string {
    t.strip(Join("\n", s.lines))
  }

  predicate IsNormative(t: TextOps, s: Section) {
    t.lower(t.strip(s.title)) !in NON_NORMATIVE_SECTION_TITLES
  }

  /** A document's path, file name and the classifier of its chunks. */
  datatype Document = Document(path: string, fileName: string, policyType: (string, string) -> string)

  function ChunkOf(doc: Document, title: string, text: string, content: string): PolicyChunk {
    PolicyChunk(doc.path, title, content, doc.policyType(doc.path, title + "\n" + text), 0.0)
  }

  function Pieces(doc: Document, title: string, text: string, maxChars: nat): seq<PolicyChunk>
    requires maxChars > 0
    decreases |text|
  {
    if |text| > maxChars
    then [ChunkOf(doc, title, text, text[..maxChars])] + Pieces(doc, title, text[maxChars..], maxChars)
    else [ChunkOf(doc, title, text, text)]
  }

  function SectionChunks(t: TextOps, doc: Document, s: Section, maxChars: nat): seq<PolicyChunk>
    requires maxChars > 0
  {
    if s.lines == [] || SectionText(t, s) == "" || !IsNormative(t, s) then []
    else Pieces(doc, s.title, SectionText(t, s), maxChars)
  }

  function AllChunks(t: TextOps, doc: Document, sections: seq<Section>, maxChars: nat): seq<PolicyChunk>
    requires maxChars > 0
  {
    if sections == [] then []
    else SectionChunks(t, doc, sections[0], maxChars) + AllChunks(t, doc, sections[1..], maxChars)
  }

  /** The chunks still to come. */
  function ChunksFrom(t: TextOps, doc: Document, lines: seq<string>, open: Section, maxChars: nat): seq<PolicyChunk>
    requires maxChars > 0
  {
    AllChunks(t, doc, SectionsFrom(t, lines, open, doc.fileName), maxChars)
  }

  function SplitMarkdown(t: TextOps, doc: Document, content: string, maxChars: nat): seq<PolicyChunk>
    requires maxChars > 0
  {
    ChunksFrom(t, doc, SplitLines(content), Section(doc.fileName, []), maxChars)
  }

  /** The variables that the splitter and its inner flush share. */
  class MarkdownSplitter {
    const t: TextOps
    const doc: Document
    const maxChars: nat
    var chunks: seq<PolicyChunk>
    var sectionTitle: string
    var buffer: seq<string>

    constructor (t: TextOps, doc: Document, maxChars: nat)
      ensures this.t == t && this.doc == doc && this.maxChars == maxChars
      ensures chunks == [] && sectionTitle == doc.fileName && buffer == []
    {
      this.t, this.doc, this.maxChars := t, doc, maxChars;
      chunks, sectionTitle, buffer := [], doc.fileName, [];
    }

    method Flush()
      requires maxChars > 0
      modifies this
      ensures chunks == old(chunks) + SectionChunks(t, doc, Section(old(sectionTitle), old(buffer)), maxChars)
      ensures buffer == [] && sectionTitle == old(sectionTitle)
    {
      if buffer == [] {
        return;
      }
      var text := t.strip(Join("\n", buffer));
      if text == "" {
        buffer := [];
        return;
      }
      if t.lower(t.strip(sectionTitle)) in NON_NORMATIVE_SECTION_TITLES {
        buffer := [];
        return;
      }
      ghost var all := Pieces(doc, sectionTitle, text, maxChars);
      while |text| > maxChars
        invariant chunks + Pieces(doc, sectionTitle, text, maxChars) == old(chunks) + all
        invariant sectionTitle == old(sectionTitle)
        decreases |text|
      {
        PiecesStep(doc, sectionTitle, text, maxChars, chunks);
        chunks := chunks + [ChunkOf(doc, sectionTitle, text, text[..maxChars])];
        text := text[maxChars..];
      }
      chunks := chunks + [ChunkOf(doc, sectionTitle, text, text)];
      buffer := [];
    }

    method Split(content: string) returns (found: seq<PolicyChunk>)
      requires maxChars > 0 && chunks == [] && buffer == [] && sectionTitle == doc.fileName
      modifies this
      ensures found == SplitMarkdown(t, doc, content, maxChars)
    {
      var lines := SplitLines(content);
      ghost var all := SplitMarkdown(t, doc, content, maxChars);
      for i := 0 to |lines|
        invariant chunks + ChunksFrom(t, doc, lines[i..], Section(sectionTitle, buffer), maxChars) == all
      {
        SectionStep(t, doc, lines, i, Section(sectionTitle, buffer), maxChars, chunks);
        if IsHeading(lines[i]) {
          Flush();
          sectionTitle := HeadingTitle(t, lines[i], doc.fileName);
          continue;
        }
        buffer := buffer + [lines[i]];
      }
      ChunksAtEnd(t, doc, Section(sectionTitle, buffer), maxChars, chunks);
      Flush();
      found := chunks;
    }
  }

  lemma PiecesStep(doc: Document, title: string, text: string, maxChars: nat, chunks: seq<PolicyChunk>)
    requires 0 < maxChars < |text|
    ensures chunks + Pieces(doc, title, text, maxChars)
         == (chunks + [ChunkOf(doc, title, text, text[..maxChars])]) + Pieces(doc, title, text[maxChars..], maxChars)
  {
  }

  lemma SectionStep(
      t: TextOps, doc: Document, lines: seq<string>, i: nat, open: Section, maxChars: nat, chunks: seq<PolicyChunk>)
    requires i < |lines| && maxChars > 0
    ensures chunks + ChunksFrom(t, doc, lines[i..], open, maxChars)
         == if IsHeading(lines[i]) then
              (chunks + SectionChunks(t, doc, open, maxChars))
              + ChunksFrom(t, doc, lines[i + 1..], Section(HeadingTitle(t, lines[i], doc.fileName), []), maxChars)
            else
              chunks + ChunksFrom(t, doc, lines[i + 1..], open.(lines := open.lines + [lines[i]]), maxChars)
  {
  }

  /** The open section and the lines at the end of a document make up what is left of its chunks. */
  lemma ChunksAtEnd(t: TextOps, doc: Document, open: Section, maxChars: nat, chunks: seq<PolicyChunk>)
    requires maxChars > 0
    ensures chunks + ChunksFrom(t, doc, [], open, maxChars) == chunks + SectionChunks(t, doc, open, maxChars)
  {
    assert AllChunks(t, doc, [open], maxChars) == SectionChunks(t, doc, open, maxChars) + [];
  }

  // ---------------------------------------------------------------- nothing is lost

  function Contents(chunks: seq<PolicyChunk>): string {
    if chunks == [] then "" else chunks[0].content + Contents(chunks[1..])
  }

  /** The pieces of a text put together give the text; all but the last are full and the last is
      not empty. */
  lemma {:induction false} PiecesConserve(doc: Document, title: string, text: string, maxChars: nat)
    requires maxChars > 0 && text != ""
    ensures var r := Pieces(doc, title, text, maxChars);
            && r != [] && Contents(r) == text
            && (forall i :: 0 <= i < |r| ==> r[i].sectionTitle == title && r[i].sourcePath == doc.path)
            && (forall i :: 0 <= i < |r| - 1 ==> |r[i].content| == maxChars)
            && 1 <= |r[|r| - 1].content| <= maxChars
    decreases |text|
  {
    if |text| > maxChars {
      var rest := Pieces(doc, title, text[maxChars..], maxChars);
      var r := Pieces(doc, title, text, maxChars);
      PiecesConserve(doc, title, text[maxChars..], maxChars);
      assert r[1..] == rest;
      assert text == text[..maxChars] + text[maxChars..];
    } else {
      var r := Pieces(doc, title, text, maxChars);
      assert r[1..] == [];
    }
  }

  lemma OneTimesLess(i: nat, m: nat)
    requires i > 0
    ensures i * m >= m && (i - 1) * m == i * m - m
  {
  }

  /** The i-th piece holds its part of the text, under the title, with the type of what is left there. */
  lemma {:induction false} PiecesAre(
      doc: Document, title: string, text: string, maxChars: nat, i: nat, start: nat)
    requires maxChars > 0 && i < |Pieces(doc, title, text, maxChars)| && start == i * maxChars
    ensures start <= |text|
    ensures var left := text[start..];
            Pieces(doc, title, text, maxChars)[i]
            == PolicyChunk(doc.path, title, if |left| > maxChars then left[..maxChars] else left,
                           doc.policyType(doc.path, title + "\n" + left), 0.0)
    decreases |text|
  {
    if i > 0 {
      OneTimesLess(i, maxChars);
      PiecesAre(doc, title, text[maxChars..], maxChars, i - 1, start - maxChars);
      assert text[maxChars..][start - maxChars..] == text[start..];
    } else {
      assert text[0..] == text;
    }
  }

  /** A section with text that is not blank, and with a title that calls for it, is conserved; any other
      section yields nothing. */
  lemma SectionIsConserved(t: TextOps, doc: Document, s: Section, maxChars: nat)
    requires maxChars > 0
    ensures var r, text := SectionChunks(t, doc, s, maxChars), t.strip(Join("\n", s.lines));
            if s.lines != [] && text != "" && t.lower(t.strip(s.title)) !in {"적용 범위", "scope", "overview"} then
              && r != [] && r == Pieces(doc, s.title, text, maxChars) && Contents(r) == text
              && (forall i :: 0 <= i < |r| ==> r[i].sectionTitle == s.title && r[i].sourcePath == doc.path)
              && (forall i :: 0 <= i < |r| - 1 ==> |r[i].content| == maxChars)
              && 1 <= |r[|r| - 1].content| <= maxChars
            else r == []
  {
    if s.lines != [] && SectionText(t, s) != "" && IsNormative(t, s) {
      PiecesConserve(doc, s.title, SectionText(t, s), maxChars);
    }
  }

  /** A heading is one or more hashes and then the title, or the file name where that is blank. */
  ghost predicate TitleIs(t: TextOps, line: string, fileName: string, title: string, hashes: int) {
    && 0 < hashes <= |line| && (forall i :: 0 <= i < hashes ==> line[i] == '#')
    && (hashes == |line| || line[hashes] != '#')
    && title == if t.strip(line[hashes..]) == "" then fileName else t.strip(line[hashes..])
  }

  lemma {:induction false} HashesEnd(line: string) returns (hashes: nat)
    ensures hashes <= |line| && WithoutHashes(line) == line[hashes..]
    ensures (forall i :: 0 <= i < hashes ==> line[i] == '#') && (hashes == |line| || line[hashes] != '#')
  {
    if IsHeading(line) {
      var later := HashesEnd(line[1..]);
      hashes := later + 1;
      assert line[1..][later..] == line[hashes..];
    } else {
      hashes := 0;
    }
  }

  lemma HeadingMeans(t: TextOps, line: string, fileName: string) returns (hashes: nat)
    ensures IsHeading(line) <==> "#" <= line
    ensures IsHeading(line) ==> TitleIs(t, line, fileName, HeadingTitle(t, line, fileName), hashes)
  {
    hashes := HashesEnd(line);
  }

  function Headings(lines: seq<string>): seq<string> {
    if lines == [] then [] else (if IsHeading(lines[0]) then [lines[0]] else []) + Headings(lines[1..])
  }

  /** The document that the sections and the headings between them make up. */
  function Assembled(sections: seq<Section>, headings: seq<string>): seq<string> {
    if sections == [] then []
    else if headings == [] then sections[0].lines
    else sections[0].lines + ([headings[0]] + Assembled(sections[1..], headings[1..]))
  }

  /** Sections read a document: with its headings put back between them they give all its lines in
      order, no section holds a heading, and each section after the first carries the title of the
      heading before it. */
  ghost predicate Reads(t: TextOps, sections: seq<Section>, headings: seq<string>, lines: seq<string>,
                        title: string, fileName: string) {
    && |sections| == |headings| + 1
    && Assembled(sections, headings) == lines
    && sections[0].title == title
    && (forall i :: 0 <= i < |headings| ==> sections[i + 1].title == HeadingTitle(t, headings[i], fileName))
    && (forall i :: 0 <= i < |sections| ==> NoHeading(sections[i].lines))
  }

  ghost predicate NoHeading(lines: seq<string>) {
    forall l :: l in lines ==> !IsHeading(l)
  }

  lemma ReadsMore(t: TextOps, open: Section, heading: string, sections: seq<Section>, headings: seq<string>,
                  lines: seq<string>, fileName: string)
    requires NoHeading(open.lines)
    ensures Reads(t, sections, headings, lines, HeadingTitle(t, heading, fileName), fileName) ==>
              Reads(t, [open] + sections, [heading] + headings, open.lines + ([heading] + lines), open.title, fileName)
  {
  }

  /** Reading on from an open section gives the lines that it has and those that follow. */
  ghost predicate ReadsFrom(t: TextOps, lines: seq<string>, open: Section, fileName: string) {
    Reads(t, SectionsFrom(t, lines, open, fileName), Headings(lines), open.lines + lines, open.title, fileName)
  }

  lemma ReadsEnd(t: TextOps, open: Section, fileName: string)
    requires NoHeading(open.lines)
    ensures ReadsFrom(t, [], open, fileName)
  {
    assert open.lines + [] == open.lines;
  }

  lemma ReadsHeading(t: TextOps, line: string, rest: seq<string>, open: Section, fileName: string)
    requires NoHeading(open.lines) && IsHeading(line)
    ensures ReadsFrom(t, rest, Section(HeadingTitle(t, line, fileName), []), fileName) ==>
              ReadsFrom(t, [line] + rest, open, fileName)
  {
    var lines, next := [line] + rest, Section(HeadingTitle(t, line, fileName), []);
    assert lines[1..] == rest && [] + rest == rest;
    assert open.lines + lines == open.lines + ([line] + rest);
    assert Headings(lines) == [line] + Headings(rest);
    assert SectionsFrom(t, lines, open, fileName) == [open] + SectionsFrom(t, rest, next, fileName);
    ReadsMore(t, open, line, SectionsFrom(t, rest, next, fileName), Headings(rest), rest, fileName);
  }

  lemma ReadsPlainLine(t: TextOps, line: string, rest: seq<string>, open: Section, fileName: string)
    requires !IsHeading(line)
    ensures ReadsFrom(t, rest, open.(lines := open.lines + [line]), fileName) ==>
              ReadsFrom(t, [line] + rest, open, fileName)
  {
    var lines := [line] + rest;
    assert lines[1..] == rest;
    assert (open.lines + [line]) + rest == open.lines + lines;
    assert Headings(lines) == Headings(rest);
    assert SectionsFrom(t, lines, open, fileName)
        == SectionsFrom(t, rest, open.(lines := open.lines + [line]), fileName);
  }

  lemma {:induction false} SectionsRead(t: TextOps, lines: seq<string>, open: Section, fileName: string)
    ensures NoHeading(open.lines) ==> ReadsFrom(t, lines, open, fileName)
    decreases lines
  {
    if NoHeading(open.lines) {
      if lines == [] {
        ReadsEnd(t, open, fileName);
      } else {
        var line, rest := lines[0], lines[1..];
        assert lines == [line] + rest;
        if IsHeading(line) {
          SectionsRead(t, rest, Section(HeadingTitle(t, line, fileName), []), fileName);
          ReadsHeading(t, line, rest, open, fileName);
        } else {
          SectionsRead(t, rest, open.(lines := open.lines + [line]), fileName);
          ReadsPlainLine(t, line, rest, open, fileName);
        }
      }
    }
  }

  /** The sections of a document are the document. */
  lemma SectionsAreDocument(t: TextOps, lines: seq<string>, fileName: string)
    ensures Reads(t, SectionsFrom(t, lines, Section(fileName, []), fileName), Headings(lines), lines, fileName,
            fileName)
  {
    SectionsRead(t, lines, Section(fileName, []), fileName);
    assert [] + lines == lines;
  }

  /** The chunks of a document are those of its sections, in order; the first section is under the name of
      the file. */
  lemma ChunksOfDocument(t: TextOps, doc: Document, content: string, maxChars: nat) returns (sections: seq<Section>)
    requires maxChars > 0
    ensures Reads(t, sections, Headings(SplitLines(content)), SplitLines(content), doc.fileName, doc.fileName)
    ensures SplitMarkdown(t, doc, content, maxChars) == AllChunks(t, doc, sections, maxChars)
  {
    sections := SectionsFrom(t, SplitLines(content), Section(doc.fileName, []), doc.fileName);
    SectionsAreDocument(t, SplitLines(content), doc.fileName);
  }

  /** They come section by section. */
  lemma {:induction false} ChunksInOrder(t: TextOps, doc: Document, a: seq<Section>, b: seq<Section>, maxChars: nat)
    requires maxChars > 0
    ensures AllChunks(t, doc, a + b, maxChars) == AllChunks(t, doc, a, maxChars) + AllChunks(t, doc, b, maxChars)
  {
    if a == [] {
      assert a + b == b;
    } else {
      assert (a + b)[1..] == a[1..] + b;
      ChunksInOrder(t, doc, a[1..], b, maxChars);
    }
  }
}
