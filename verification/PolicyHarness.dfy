/** policy_harness.py: which skills and knowledge cards a review gets, from the signals and the
    markers found in its files. */
module PolicyHarness {
  import opened Text
  import opened Schemas
  import opened Sorting
  import opened Lists
  import DiffReaders

  // ---------------------------------------------------------------- markers

  predicate IsWordChar(c: char) {
    'a' <= c <= 'z' || '0' <= c <= '9' || c == '_'
  }

  predicate IsWord(marker: string) {
    marker != "" && forall i :: 0 <= i < |marker| ==> IsWordChar(marker[i])
  }

  /** An occurrence that no further word character touches. */
  predicate WordAt(text: string, word: string, i: int) {
    && OccursAt(text, word, i)
    && (i > 0 ==> !IsWordChar(text[i - 1]))
    && (i + |word| < |text| ==> !IsWordChar(text[i + |word|]))
  }

  /** _contains_marker: words are found whole, anything else as a substring. */
  predicate ContainsMarker(text: string, marker: string) {
    if IsWord(marker) then exists i :: 0 <= i <= |text| && WordAt(text, marker, i) else Contains(text, marker)
  }

  /** An occurrence of either form. */
  predicate MarkerAt(text: string, marker: string, i: int) {
    if IsWord(marker) then WordAt(text, marker, i) else OccursAt(text, marker, i)
  }

  lemma ContainsMarkerAt(text: string, marker: string)
    ensures ContainsMarker(text, marker) <==> exists i :: 0 <= i <= |text| && MarkerAt(text, marker, i)
  {
    if IsWord(marker) {
      if ContainsMarker(text, marker) {
        var i :| 0 <= i <= |text| && WordAt(text, marker, i);
        assert MarkerAt(text, marker, i);
      }
      if i :| 0 <= i <= |text| && MarkerAt(text, marker, i) {
        assert WordAt(text, marker, i);
      }
    } else {
      if ContainsMarker(text, marker) {
        var i :| 0 <= i <= |text| && OccursAt(text, marker, i);
        assert MarkerAt(text, marker, i);
      }
      if i :| 0 <= i <= |text| && MarkerAt(text, marker, i) {
        assert OccursAt(text, marker, i);
      }
    }
  }

  lemma BeforeNewline(first: string, rest: string, marker: string, i: int)
    requires OccursAt(first, marker, i) && marker != ""
    ensures OccursAt(first + ("\n" + rest), marker, i)
    ensures WordAt(first + ("\n" + rest), marker, i) <==> WordAt(first, marker, i)
  {
    var text, n := first + ("\n" + rest), |first|;
    assert text[..n] == first && text[n] == '\n';
    assert text[i..i + |marker|] == first[i..i + |marker|];
    assert i > 0 ==> text[i - 1] == first[i - 1];
    assert text[i + |marker|] == if i + |marker| < n then first[i + |marker|] else '\n';
  }

  lemma AfterNewline(first: string, rest: string, marker: string, i: int)
    requires OccursAt(rest, marker, i) && marker != ""
    ensures OccursAt(first + ("\n" + rest), marker, |first| + 1 + i)
    ensures WordAt(first + ("\n" + rest), marker, |first| + 1 + i) <==> WordAt(rest, marker, i)
  {
    var text, n := first + ("\n" + rest), |first| + 1;
    assert text[n - 1] == '\n' && text[n..] == rest;
    assert text[n + i..n + i + |marker|] == rest[i..i + |marker|];
    assert text[n + i - 1] == if i > 0 then rest[i - 1] else '\n';
    assert n + i + |marker| < |text| ==> text[n + i + |marker|] == rest[i + |marker|];
  }

  /** A marker without a newline lies on one side of a newline, and the newline bounds words. */
  lemma AcrossNewline(first: string, rest: string, marker: string, i: int)
    requires marker != "" && '\n' !in marker
    ensures MarkerAt(first + ("\n" + rest), marker, i)
       <==> MarkerAt(first, marker, i) || MarkerAt(rest, marker, i - |first| - 1)
  {
    OccursAcross(first, '\n', rest, marker, i);
    if OccursAt(first, marker, i) {
      BeforeNewline(first, rest, marker, i);
    }
    if OccursAt(rest, marker, i - |first| - 1) {
      AfterNewline(first, rest, marker, i - |first| - 1);
    }
  }

  lemma JoinOfOne(first: string, rest: string, marker: string)
    requires marker != "" && '\n' !in marker
    ensures ContainsMarker(first + ("\n" + rest), marker)
       <==> ContainsMarker(first, marker) || ContainsMarker(rest, marker)
  {
    var text := first + ("\n" + rest);
    ContainsMarkerAt(text, marker);
    ContainsMarkerAt(first, marker);
    ContainsMarkerAt(rest, marker);
    if i :| 0 <= i <= |text| && MarkerAt(text, marker, i) {
      AcrossNewline(first, rest, marker, i);
    }
    if i :| 0 <= i <= |first| && MarkerAt(first, marker, i) {
      AcrossNewline(first, rest, marker, i);
    }
    if i :| 0 <= i <= |rest| && MarkerAt(rest, marker, i) {
      AcrossNewline(first, rest, marker, i + |first| + 1);
      assert 0 <= i + |first| + 1 <= |text|;
    }
  }

  predicate SomeContains(texts: seq<string>, marker: string) {
    exists i :: 0 <= i < |texts| && ContainsMarker(texts[i], marker)
  }

  lemma {:induction false} JoinedFindsSame(texts: seq<string>, marker: string)
    requires marker != "" && '\n' !in marker
    ensures ContainsMarker(Join("\n", texts), marker) <==> SomeContains(texts, marker)
  {
    if |texts| == 1 {
      assert texts[0] == Join("\n", texts);
    } else if |texts| > 1 {
      var rest := Join("\n", texts[1..]);
      assert Join("\n", texts) == texts[0] + ("\n" + rest);
      JoinOfOne(texts[0], rest, marker);
      JoinedFindsSame(texts[1..], marker);
      SomeContainsSplit(texts, marker);
    }
  }

  lemma SomeContainsSplit(texts: seq<string>, marker: string)
    requires texts != []
    ensures SomeContains(texts, marker) <==> ContainsMarker(texts[0], marker) || SomeContains(texts[1..], marker)
  {
  }

  /** Searching the joined texts of all files finds the same as searching file by file, for every
      list of texts, if and only if the marker is not empty and holds no newline. */
  lemma JoinedSearch(marker: string)
    ensures (forall texts :: ContainsMarker(Join("\n", texts), marker) <==> SomeContains(texts, marker))
       <==> marker != "" && '\n' !in marker
  {
    if marker != "" && '\n' !in marker {
      forall texts
        ensures ContainsMarker(Join("\n", texts), marker) <==> SomeContains(texts, marker)
      {
        JoinedFindsSame(texts, marker);
      }
    } else if marker == "" {
      assert OccursAt(Join("\n", []), "", 0);
      assert ContainsMarker(Join("\n", []), marker) && !SomeContains([], marker);
    } else {
      var k :| 0 <= k < |marker| && marker[k] == '\n';
      NewlineMarkerSplits(marker, k);
    }
  }

  lemma NewlineMarkerSplits(marker: string, k: int)
    requires 0 <= k < |marker| && marker[k] == '\n'
    ensures ContainsMarker(Join("\n", [marker[..k], marker[k + 1..]]), marker)
    ensures !SomeContains([marker[..k], marker[k + 1..]], marker)
  {
    var texts := [marker[..k], marker[k + 1..]];
    assert texts[1..] == [marker[k + 1..]];
    assert Join("\n", texts) == marker;
    assert !IsWord(marker) by {
      assert !IsWordChar(marker[k]);
    }
    assert OccursAt(marker, marker, 0);
  }

  // ---------------------------------------------------------------- skills

  datatype SkillItem = SkillItem(
    id: string, routes: set<string>, signals: set<string>, alwaysRoutes: set<string>, always: bool, priority: int,
    policyTypes: seq<string>)

  datatype Skill = Skill(skillId: string, score: int, policyTypes: seq<string>)

  function SkillFor(route: string, signals: set<string>, item: SkillItem): Option<Skill> {
    var matched := item.signals * signals;
    var always := item.always || route in item.alwaysRoutes;
    if route !in item.routes || (!always && matched == {}) then None
    else Some(Skill(item.id, (if always then 100 else 0) + item.priority + 20 * |matched|, item.policyTypes))
  }

  /** Higher scores first, equal scores by ID. */
  predicate Before(score: int, id: string, otherScore: int, otherId: string) {
    score > otherScore || (score == otherScore && StringLeq(id, otherId))
  }

  predicate SkillLeq(a: Skill, b: Skill) {
    Before(a.score, a.skillId, b.score, b.skillId)
  }

  lemma BeforeMeans(score: int, id: string, otherScore: int, otherId: string)
    ensures Before(score, id, otherScore, otherId)
       <==> score >= otherScore && (score == otherScore ==> FirstInAlphabet(id, otherId))
  {
    StringLeqMeans(id, otherId);
  }

  lemma BeforeIsOrder(s: int, a: string, t: int, b: string, u: int, c: string)
    ensures Before(s, a, t, b) || Before(t, b, s, a)
    ensures Before(s, a, t, b) && Before(t, b, u, c) ==> Before(s, a, u, c)
  {
    StringLeqTotal(a, b);
    if StringLeq(a, b) && StringLeq(b, c) {
      StringLeqTransitive(a, b, c);
    }
  }

  lemma SkillLeqIsPreorder()
    ensures TotalPreorder(SkillLeq)
  {
    forall a: Skill, b: Skill, c: Skill
      ensures SkillLeq(a, b) || SkillLeq(b, a)
      ensures SkillLeq(a, b) && SkillLeq(b, c) ==> SkillLeq(a, c)
    {
      BeforeIsOrder(a.score, a.skillId, b.score, b.skillId, c.score, c.skillId);
    }
  }

  function RankedSkills(route: string, signals: set<string>, items: seq<SkillItem>): seq<Skill> {
    StableSort(SkillLeq, Passing((item: SkillItem) => SkillFor(route, signals, item), items))
  }

  function SelectedSkills(route: string, signals: set<string>, items: seq<SkillItem>, maxSkills: nat): seq<Skill> {
    Take(RankedSkills(route, signals, items), maxSkills)
  }

  // ---------------------------------------------------------------- eligible cards

  datatype CardItem = CardItem(
    id: string, skillId: string, routes: set<string>, signals: set<string>, always: bool,
    pathMarkers: seq<string>, patchMarkers: seq<string>, requirePatch: bool, requirePathAndPatch: bool,
    severityCap: string, forbiddenClaimMarkers: seq<string>)

  /** Lower-cased path and reviewable patch of each changed file, with the rest a card is chosen by. */
  datatype Situation = Situation(
    route: string, skillIds: set<string>, signals: set<string>, paths: seq<string>, patches: seq<string>)

  function FirstFound(text: string, markers: seq<string>): Option<string> {
    if markers == [] then None
    else if ContainsMarker(text, markers[0]) then Some(markers[0])
    else FirstFound(text, markers[1..])
  }

  /** The first pair of markers found in one and the same file. */
  function SameFile(paths: seq<string>, patches: seq<string>, item: CardItem): Option<(string, string)>
    requires |paths| == |patches|
  {
    if paths == [] then None
    else
      var path, patch := FirstFound(paths[0], item.pathMarkers), FirstFound(patches[0], item.patchMarkers);
      if path.Some? && patch.Some? then Some((path.value, patch.value)) else SameFile(paths[1..], patches[1..], item)
  }

  predicate Truthy(found: Option<string>) {
    found.Some? && found.value != ""
  }

  function Eligible(s: Situation, item: CardItem): Option<KnowledgeCard>
    requires |s.paths| == |s.patches|
  {
    if item.skillId !in s.skillIds then None
    else if item.routes != {} && s.route !in item.routes then None
    else if item.signals != {} && item.signals * s.signals == {} && !item.always then None
    else ByMarkers(item, |item.signals * s.signals|,
                   FirstFound(Join("\n", s.paths), item.pathMarkers),
                   FirstFound(Join("\n", s.patches), item.patchMarkers),
                   SameFile(s.paths, s.patches, item))
  }

  /** The part of the choice that rests on the markers found. */
  function ByMarkers(
    item: CardItem, matched: nat, anyPath: Option<string>, anyPatch: Option<string>, together: Option<(string, string)>)
    : Option<KnowledgeCard>
  {
    if item.requirePatch && !Truthy(anyPatch) then None
    else if item.requirePathAndPatch && together.None? then None
    else
      var path := if item.requirePathAndPatch then Some(together.value.0) else anyPath;
      var patch := if item.requirePathAndPatch then Some(together.value.1) else anyPatch;
      if (item.pathMarkers != [] || item.patchMarkers != []) && !Truthy(path) && !Truthy(patch)
        && !item.always then None
      else Some(KnowledgeCard(item.id, item.skillId, item.severityCap, item.forbiddenClaimMarkers,
                              20 * matched + (if Truthy(path) then 10 else 0)
                              + (if Truthy(patch) then 10 else 0) + (if item.always then 5 else 0)))
  }

  lemma {:induction false} FoundIsMarker(text: string, markers: seq<string>)
    ensures FirstFound(text, markers).Some? <==> exists m :: m in markers && ContainsMarker(text, m)
    ensures FirstFound(text, markers).Some? ==>
              FirstFound(text, markers).value in markers && ContainsMarker(text, FirstFound(text, markers).value)
  {
    if markers != [] {
      FoundIsMarker(text, markers[1..]);
      if m :| m in markers && ContainsMarker(text, m) {
        assert m == markers[0] || m in markers[1..];
      }
    }
  }

  /** Where the pair comes from. */
  lemma {:induction false} SameFileAt(paths: seq<string>, patches: seq<string>, item: CardItem) returns (i: int)
    requires |paths| == |patches| && SameFile(paths, patches, item).Some?
    ensures 0 <= i < |paths|
    ensures FirstFound(paths[i], item.pathMarkers) == Some(SameFile(paths, patches, item).value.0)
    ensures FirstFound(patches[i], item.patchMarkers) == Some(SameFile(paths, patches, item).value.1)
  {
    var path, patch := FirstFound(paths[0], item.pathMarkers), FirstFound(patches[0], item.patchMarkers);
    if path.Some? && patch.Some? {
      i := 0;
    } else {
      var k := SameFileAt(paths[1..], patches[1..], item);
      i := k + 1;
    }
  }

  /** What is found in one text is found in all texts joined, whatever the marker. */
  lemma JoinedFinds(texts: seq<string>, i: nat, marker: string)
    requires i < |texts| && ContainsMarker(texts[i], marker)
    ensures ContainsMarker(Join("\n", texts), marker)
  {
    if IsWord(marker) {
      JoinedFindsSame(texts, marker);
    } else {
      JoinContains("\n", texts, i);
      ContainsThrough(Join("\n", texts), texts[i], marker);
    }
  }

  lemma EverythingContainsEmpty(text: string)
    ensures ContainsMarker(text, "")
  {
    assert OccursAt(text, "", 0);
  }

  /** A first marker that is not empty has no empty marker before it. */
  lemma {:induction false} FirstFoundTruthy(text: string, wider: string, markers: seq<string>)
    requires Truthy(FirstFound(text, markers))
    requires forall m :: m in markers && ContainsMarker(text, m) ==> ContainsMarker(wider, m)
    ensures Truthy(FirstFound(wider, markers))
  {
    EverythingContainsEmpty(text);
    if !ContainsMarker(text, markers[0]) && !ContainsMarker(wider, markers[0]) {
      FirstFoundTruthy(text, wider, markers[1..]);
    }
  }

  lemma TogetherIsJoined(paths: seq<string>, patches: seq<string>, item: CardItem)
    requires |paths| == |patches| && SameFile(paths, patches, item).Some?
             && SameFile(paths, patches, item).value.1 != ""
    ensures Truthy(FirstFound(Join("\n", patches), item.patchMarkers))
  {
    var i := SameFileAt(paths, patches, item);
    forall m | m in item.patchMarkers && ContainsMarker(patches[i], m)
      ensures ContainsMarker(Join("\n", patches), m)
    {
      JoinedFinds(patches, i, m);
    }
    FirstFoundTruthy(patches[i], Join("\n", patches), item.patchMarkers);
  }

  lemma FoundPatchInMarkers(paths: seq<string>, patches: seq<string>, item: CardItem)
    requires |paths| == |patches| && SameFile(paths, patches, item).Some?
    ensures SameFile(paths, patches, item).value.1 in item.patchMarkers
  {
    var i := SameFileAt(paths, patches, item);
    FoundIsMarker(patches[i], item.patchMarkers);
  }

  lemma {:induction false} NoPathMarkers(paths: seq<string>, patches: seq<string>, item: CardItem)
    requires |paths| == |patches| && item.pathMarkers == []
    ensures SameFile(paths, patches, item).None?
  {
    if paths != [] {
      NoPathMarkers(paths[1..], patches[1..], item);
    }
  }

  /** The file in which only the empty patch marker is found: its path is a path marker, its patch has
      nothing to review. */
  lemma EmptyMarkerFound(item: CardItem)
    requires "" in item.patchMarkers && item.pathMarkers != []
    ensures SameFile([item.pathMarkers[0]], [""], item) == Some((item.pathMarkers[0], ""))
    ensures FirstFound(Join("\n", [""]), item.patchMarkers) == Some("")
  {
    var path := item.pathMarkers[0];
    assert OccursAt(path, path, 0);
    assert IsWord(path) ==> WordAt(path, path, 0);
    FoundInEmpty(item.patchMarkers);
  }

  lemma {:induction false} FoundInEmpty(markers: seq<string>)
    requires "" in markers
    ensures FirstFound("", markers) == Some("")
  {
    EverythingContainsEmpty("");
    if markers[0] != "" {
      FoundInEmpty(markers[1..]);
    }
  }

  /** The early require_patch test never rejects what the same-file test accepts, whatever the files,
      if and only if the card has no empty patch marker, or no path marker at all. */
  lemma RequirePatchIsImplied(item: CardItem)
    ensures (forall paths, patches :: |paths| == |patches| && SameFile(paths, patches, item).Some? ==>
              Truthy(FirstFound(Join("\n", patches), item.patchMarkers)))
       <==> "" !in item.patchMarkers || item.pathMarkers == []
  {
    if "" !in item.patchMarkers || item.pathMarkers == [] {
      forall paths, patches | |paths| == |patches| && SameFile(paths, patches, item).Some?
        ensures Truthy(FirstFound(Join("\n", patches), item.patchMarkers))
      {
        if item.pathMarkers == [] {
          NoPathMarkers(paths, patches, item);
        } else {
          FoundPatchInMarkers(paths, patches, item);
          TogetherIsJoined(paths, patches, item);
        }
      }
    } else {
      EmptyMarkerFound(item);
      assert !Truthy(FirstFound(Join("\n", [""]), item.patchMarkers));
    }
  }

  /** No empty patch marker; or no path is ever found, or only the empty one. */
  predicate RequirePatchIdle(item: CardItem) {
    "" !in item.patchMarkers || item.pathMarkers == [] || (item.pathMarkers[0] == "" && !item.always)
  }

  ghost predicate SameEitherWay(s: Situation, item: CardItem)
    requires |s.paths| == |s.patches|
  {
    Eligible(s, item.(requirePatch := true)) == Eligible(s, item.(requirePatch := false))
  }

  /** For a card that needs path and patch in one file, require_patch makes no difference to its
      eligibility, whatever the files, if and only if the markers meet this. */
  lemma RequirePatchIsIdle(item: CardItem)
    requires item.requirePathAndPatch
    ensures (forall s: Situation :: |s.paths| == |s.patches| ==> SameEitherWay(s, item)) <==> RequirePatchIdle(item)
  {
    if RequirePatchIdle(item) {
      forall s: Situation | |s.paths| == |s.patches|
        ensures SameEitherWay(s, item)
      {
        IdleInSituation(s, item);
      }
    } else {
      var s := TellingSituation(item);
      assert |s.paths| == |s.patches| && !SameEitherWay(s, item);
    }
  }

  lemma IdleInSituation(s: Situation, item: CardItem)
    requires item.requirePathAndPatch && |s.paths| == |s.patches| && RequirePatchIdle(item)
    ensures SameEitherWay(s, item)
  {
    var together := SameFile(s.paths, s.patches, item);
    SameFileIgnores(s.paths, s.patches, item, true);
    SameFileIgnores(s.paths, s.patches, item, false);
    if together.Some? {
      if together.value.1 != "" {
        TogetherIsJoined(s.paths, s.patches, item);
      } else if item.pathMarkers == [] {
        NoPathMarkers(s.paths, s.patches, item);
      } else {
        FoundPatchInMarkers(s.paths, s.patches, item);
        var i := SameFileAt(s.paths, s.patches, item);
        EverythingContainsEmpty(s.paths[i]);
      }
    }
    SameByMarkers(item, |item.signals * s.signals|, FirstFound(Join("\n", s.paths), item.pathMarkers),
                  FirstFound(Join("\n", s.patches), item.patchMarkers), together);
  }

  lemma SameByMarkers(
      item: CardItem, matched: nat, anyPath: Option<string>, anyPatch: Option<string>,
          together: Option<(string, string)>)
    requires item.requirePathAndPatch
    requires together.Some? ==>
               Truthy(anyPatch) || (together.value == ("", "") && !item.always && item.patchMarkers != [])
    ensures ByMarkers(item.(requirePatch := true), matched, anyPath, anyPatch, together)
         == ByMarkers(item.(requirePatch := false), matched, anyPath, anyPatch, together)
  {
  }

  /** Files for which the early test rejects the card and the same-file test does not. */
  lemma TellingSituation(item: CardItem) returns (s: Situation)
    requires item.requirePathAndPatch && !RequirePatchIdle(item)
    ensures |s.paths| == |s.patches| && !SameEitherWay(s, item)
  {
    var route := if item.routes == {} then "" else var r :| r in item.routes; r;
    s := Situation(route, {item.skillId}, item.signals, [item.pathMarkers[0]], [""]);
    EmptyMarkerFound(item);
    SameFileIgnores(s.paths, s.patches, item, true);
    SameFileIgnores(s.paths, s.patches, item, false);
    assert item.signals * s.signals == item.signals;
  }

  lemma {:induction false} SameFileIgnores(paths: seq<string>, patches: seq<string>, item: CardItem, b: bool)
    requires |paths| == |patches|
    ensures SameFile(paths, patches, item.(requirePatch := b)) == SameFile(paths, patches, item)
  {
    if paths != [] {
      SameFileIgnores(paths[1..], patches[1..], item, b);
    }
  }

  // ---------------------------------------------------------------- allocation

  predicate CardLeq(a: KnowledgeCard, b: KnowledgeCard) {
    Before(a.score, a.cardId, b.score, b.cardId)
  }

  lemma CardLeqIsPreorder()
    ensures TotalPreorder(CardLeq)
  {
    forall a: KnowledgeCard, b: KnowledgeCard, c: KnowledgeCard
      ensures CardLeq(a, b) || CardLeq(b, a)
      ensures CardLeq(a, b) && CardLeq(b, c) ==> CardLeq(a, c)
    {
      BeforeIsOrder(a.score, a.cardId, b.score, b.cardId, c.score, c.cardId);
    }
  }

  /** The card has the higher score, or the same and the ID that comes first. */
  ghost predicate RanksAbove(a: KnowledgeCard, b: KnowledgeCard) {
    a.score >= b.score && (a.score == b.score ==> FirstInAlphabet(a.cardId, b.cardId))
  }

  function CardId(c: KnowledgeCard): string {
    c.cardId
  }

  /** The best-ranked card of a skill. */
  function BestOf(ranked: seq<KnowledgeCard>, skillId: string): Option<KnowledgeCard> {
    if ranked == [] then None
    else if ranked[0].skillId == skillId then Some(ranked[0])
    else BestOf(ranked[1..], skillId)
  }

  predicate HasCard(cards: seq<KnowledgeCard>, id: string) {
    HasKey(CardId, cards, id)
  }

  /** Phase one: the best card of each skill, until the limit is reached. */
  function PhaseOne(skills: seq<Skill>, ranked: seq<KnowledgeCard>, maxCards: nat, taken: seq<KnowledgeCard>)
    : seq<KnowledgeCard>
    decreases skills
  {
    if skills == [] then taken
    else
      var best := BestOf(ranked, skills[0].skillId);
      if best.None? || HasCard(taken, best.value.cardId) then PhaseOne(skills[1..], ranked, maxCards, taken)
      else
        var more := taken + [best.value];
        if |more| >= maxCards then more else PhaseOne(skills[1..], ranked, maxCards, more)
  }

  /** Phase two: the remaining places go to the best of the rest. */
  function PhaseTwo(ranked: seq<KnowledgeCard>, maxCards: nat, taken: seq<KnowledgeCard>): seq<KnowledgeCard>
    decreases ranked
  {
    if ranked == [] || |taken| >= maxCards then taken
    else if HasCard(taken, ranked[0].cardId) then PhaseTwo(ranked[1..], maxCards, taken)
    else PhaseTwo(ranked[1..], maxCards, taken + [ranked[0]])
  }

  function Allocated(skills: seq<Skill>, cards: seq<KnowledgeCard>, maxCards: nat): seq<KnowledgeCard> {
    var ranked := StableSort(CardLeq, cards);
    PhaseTwo(ranked, maxCards, PhaseOne(skills, ranked, maxCards, []))
  }

  method AllocateCards(skills: seq<Skill>, cards: seq<KnowledgeCard>, maxCards: nat)
    returns (selected: seq<KnowledgeCard>)
    ensures selected == Allocated(skills, cards, maxCards)
  {
    var ranked := StableSort(CardLeq, cards);
    var ids: set<string>;
    selected, ids := TakeBestPerSkill(skills, ranked, maxCards);
    selected := FillRemaining(ranked, maxCards, selected, ids);
  }

  method TakeBestPerSkill(skills: seq<Skill>, ranked: seq<KnowledgeCard>, maxCards: nat)
    returns (selected: seq<KnowledgeCard>, ids: set<string>)
    ensures selected == PhaseOne(skills, ranked, maxCards, [])
    ensures KeysAre(CardId, selected, ids)
  {
    selected, ids := [], {};
    assert skills[0..] == skills;
    for i := 0 to |skills|
      invariant PhaseOne(skills[i..], ranked, maxCards, selected) == PhaseOne(skills, ranked, maxCards, [])
      invariant KeysAre(CardId, selected, ids)
    {
      assert skills[i..][1..] == skills[i + 1..];
      var best := BestOf(ranked, skills[i].skillId);
      if best.None? || best.value.cardId in ids {
        continue;
      }
      KeysNext(CardId, selected, ids, best.value);
      selected := selected + [best.value];
      ids := ids + {best.value.cardId};
      if |selected| >= maxCards {
        return;
      }
    }
  }

  method FillRemaining(ranked: seq<KnowledgeCard>, maxCards: nat, taken: seq<KnowledgeCard>, takenIds: set<string>)
    returns (selected: seq<KnowledgeCard>)
    requires KeysAre(CardId, taken, takenIds)
    ensures selected == PhaseTwo(ranked, maxCards, taken)
  {
    selected := taken;
    var ids := takenIds;
    assert ranked[0..] == ranked;
    for i := 0 to |ranked|
      invariant PhaseTwo(ranked[i..], maxCards, selected) == PhaseTwo(ranked, maxCards, taken)
      invariant KeysAre(CardId, selected, ids)
    {
      assert ranked[i..][1..] == ranked[i + 1..];
      if |selected| >= maxCards {
        return;
      }
      if ranked[i].cardId in ids {
        continue;
      }
      KeysNext(CardId, selected, ids, ranked[i]);
      selected := selected + [ranked[i]];
      ids := ids + {ranked[i].cardId};
    }
  }

  // ---------------------------------------------------------------- what is allocated

  /** The best cards of the skills that have one, in skill order. */
  function Bests(skills: seq<Skill>, ranked: seq<KnowledgeCard>): seq<KnowledgeCard> {
    if skills == [] then []
    else
      var best := BestOf(ranked, skills[0].skillId);
      (if best.Some? then [best.value] else []) + Bests(skills[1..], ranked)
  }

  /** The cards of `ranked` that are not taken. */
  function Others(ranked: seq<KnowledgeCard>, taken: seq<KnowledgeCard>): seq<KnowledgeCard> {
    if ranked == [] then []
    else (if HasCard(taken, ranked[0].cardId) then [] else [ranked[0]]) + Others(ranked[1..], taken)
  }

  function AtLeastOne(n: nat): nat {
    if n == 0 then 1 else n
  }

  ghost predicate DistinctSkills(skills: seq<Skill>) {
    forall i, j :: 0 <= i < j < |skills| ==> skills[i].skillId != skills[j].skillId
  }

  lemma {:induction false} BestOfIs(ranked: seq<KnowledgeCard>, skillId: string)
    ensures BestOf(ranked, skillId).None? <==> forall c :: c in ranked ==> c.skillId != skillId
    ensures BestOf(ranked, skillId).Some? ==>
              BestOf(ranked, skillId).value in ranked && BestOf(ranked, skillId).value.skillId == skillId
  {
    if ranked != [] {
      BestOfIs(ranked[1..], skillId);
    }
  }

  /** Cards taken for earlier skills are not the best card of a later one. */
  lemma FreshBest(ranked: seq<KnowledgeCard>, taken: seq<KnowledgeCard>, skillId: string)
    requires DistinctBy(CardId, ranked)
    requires forall c :: c in taken ==> c in ranked && c.skillId != skillId
    requires BestOf(ranked, skillId).Some?
    ensures !HasCard(taken, BestOf(ranked, skillId).value.cardId)
  {
    BestOfIs(ranked, skillId);
    var best := BestOf(ranked, skillId).value;
    forall i | 0 <= i < |taken|
      ensures CardId(taken[i]) != best.cardId
    {
      SameKeySame(CardId, ranked, taken[i], best);
    }
  }

  /** Phase one takes exactly the first best cards, and at least one. */
  lemma {:induction false} PhaseOneTakesBests(
      skills: seq<Skill>, ranked: seq<KnowledgeCard>, maxCards: nat, taken: seq<KnowledgeCard>)
    requires DistinctBy(CardId, ranked) && DistinctSkills(skills)
    requires forall c :: c in taken ==> c in ranked && forall i :: 0 <= i < |skills| ==> c.skillId != skills[i].skillId
    requires |taken| < AtLeastOne(maxCards)
    ensures PhaseOne(skills, ranked, maxCards, taken) == Take(taken + Bests(skills, ranked), AtLeastOne(maxCards))
    decreases skills
  {
    if skills == [] {
      assert taken + Bests(skills, ranked) == taken;
    } else {
      var best := BestOf(ranked, skills[0].skillId);
      BestOfIs(ranked, skills[0].skillId);
      if best.None? {
        PhaseOneTakesBests(skills[1..], ranked, maxCards, taken);
      } else {
        FreshBest(ranked, taken, skills[0].skillId);
        var more := taken + [best.value];
        assert more + Bests(skills[1..], ranked) == taken + Bests(skills, ranked);
        if |more| < maxCards {
          PhaseOneTakesBests(skills[1..], ranked, maxCards, more);
        } else {
          assert Take(more + Bests(skills[1..], ranked), |more|) == more;
        }
      }
    }
  }

  lemma {:induction false} OthersSkip(ranked: seq<KnowledgeCard>, taken: seq<KnowledgeCard>, c: KnowledgeCard)
    requires forall i :: 0 <= i < |ranked| ==> ranked[i].cardId != c.cardId
    ensures Others(ranked, taken + [c]) == Others(ranked, taken)
  {
    if ranked != [] {
      HasKeyNext(CardId, taken, c);
      OthersSkip(ranked[1..], taken, c);
    }
  }

  /** The places left. */
  function Places(maxCards: nat, taken: seq<KnowledgeCard>): nat {
    if |taken| >= maxCards then 0 else maxCards - |taken|
  }

  /** Phase two takes the best of the others, as many as there are places. */
  lemma {:induction false} PhaseTwoTakesOthers(ranked: seq<KnowledgeCard>, maxCards: nat, taken: seq<KnowledgeCard>)
    requires DistinctBy(CardId, ranked)
    ensures PhaseTwo(ranked, maxCards, taken) == taken + Take(Others(ranked, taken), Places(maxCards, taken))
    decreases ranked
  {
    if ranked == [] || |taken| >= maxCards {
      assert taken + [] == taken;
    } else {
      var c, rest := ranked[0], ranked[1..];
      if HasCard(taken, c.cardId) {
        PhaseTwoTakesOthers(rest, maxCards, taken);
        assert Others(ranked, taken) == Others(rest, taken);
      } else {
        PhaseTwoTakesOthers(rest, maxCards, taken + [c]);
        OthersSkip(rest, taken, c);
        MovedOne(taken, c, Others(rest, taken), maxCards);
      }
    }
  }

  lemma MovedOne(taken: seq<KnowledgeCard>, c: KnowledgeCard, others: seq<KnowledgeCard>, maxCards: nat)
    requires |taken| < maxCards
    ensures taken + Take([c] + others, Places(maxCards, taken))
         == (taken + [c]) + Take(others, Places(maxCards, taken + [c]))
  {
  }

  lemma {:induction false} OthersMembers(ranked: seq<KnowledgeCard>, taken: seq<KnowledgeCard>)
    ensures forall c :: c in Others(ranked, taken) <==> c in ranked && !HasCard(taken, c.cardId)
  {
    if ranked != [] {
      OthersMembers(ranked[1..], taken);
      assert ranked == [ranked[0]] + ranked[1..];
    }
  }

  lemma OrderedCons(first: KnowledgeCard, rest: seq<KnowledgeCard>)
    requires DistinctBy(CardId, rest) && Sorted(CardLeq, rest)
    requires forall c :: c in rest ==> c.cardId != first.cardId && CardLeq(first, c)
    ensures DistinctBy(CardId, [first] + rest) && Sorted(CardLeq, [first] + rest)
  {
  }

  lemma {:induction false} OthersAre(ranked: seq<KnowledgeCard>, taken: seq<KnowledgeCard>)
    requires DistinctBy(CardId, ranked) && Sorted(CardLeq, ranked)
    ensures forall c :: c in Others(ranked, taken) <==> c in ranked && !HasCard(taken, c.cardId)
    ensures DistinctBy(CardId, Others(ranked, taken)) && Sorted(CardLeq, Others(ranked, taken))
  {
    OthersMembers(ranked, taken);
    if ranked != [] {
      var first, rest := ranked[0], Others(ranked[1..], taken);
      OthersAre(ranked[1..], taken);
      OrderedCons(first, rest);
      assert Others(ranked, taken) == if HasCard(taken, first.cardId) then rest else [first] + rest;
    }
  }

  lemma {:induction false} BestsAre(skills: seq<Skill>, ranked: seq<KnowledgeCard>)
    requires DistinctBy(CardId, ranked) && DistinctSkills(skills)
    ensures forall c :: c in Bests(skills, ranked) ==>
              c in ranked && exists i :: 0 <= i < |skills| && BestOf(ranked, skills[i].skillId) == Some(c)
    ensures forall i :: 0 <= i < |skills| && BestOf(ranked, skills[i].skillId).Some? ==>
              BestOf(ranked, skills[i].skillId).value in Bests(skills, ranked)
    ensures DistinctBy(CardId, Bests(skills, ranked)) && |Bests(skills, ranked)| <= |skills|
  {
    if skills != [] {
      BestsAre(skills[1..], ranked);
      var best, rest := BestOf(ranked, skills[0].skillId), Bests(skills[1..], ranked);
      BestOfIs(ranked, skills[0].skillId);
      forall c | c in rest
        ensures exists i :: 0 <= i < |skills| && BestOf(ranked, skills[i].skillId) == Some(c)
        ensures c.skillId != skills[0].skillId
        ensures best.Some? ==> c.cardId != best.value.cardId
      {
        var i :| 0 <= i < |skills[1..]| && BestOf(ranked, skills[1..][i].skillId) == Some(c);
        assert skills[i + 1] == skills[1..][i];
        BestOfIs(ranked, skills[i + 1].skillId);
        if best.Some? {
          SameKeySame(CardId, ranked, c, best.value);
        }
      }
    }
  }

  /** What phase one takes. */
  function FirstTaken(skills: seq<Skill>, ranked: seq<KnowledgeCard>, maxCards: nat): seq<KnowledgeCard> {
    Take(Bests(skills, ranked), AtLeastOne(maxCards))
  }

  /** What phase two adds. */
  function LaterTaken(skills: seq<Skill>, ranked: seq<KnowledgeCard>, maxCards: nat): seq<KnowledgeCard> {
    var first := FirstTaken(skills, ranked, maxCards);
    Take(Others(ranked, first), Places(maxCards, first))
  }

  ghost predicate Allocatable(skills: seq<Skill>, cards: seq<KnowledgeCard>) {
    && DistinctSkills(skills) && DistinctBy(CardId, cards)
    && forall c :: c in cards ==> exists i :: 0 <= i < |skills| && skills[i].skillId == c.skillId
  }

  lemma RankedCards(cards: seq<KnowledgeCard>)
    requires DistinctBy(CardId, cards)
    ensures var ranked := StableSort(CardLeq, cards);
            Sorted(CardLeq, ranked) && DistinctBy(CardId, ranked) && |ranked| == |cards|
            && forall c :: c in ranked <==> c in cards
  {
    CardLeqIsPreorder();
    SortSorted(CardLeq, cards);
    SortPermutes(CardLeq, cards);
    PermutedDistinct(CardId, cards, StableSort(CardLeq, cards));
    SameElements(cards, StableSort(CardLeq, cards));
  }

  lemma BothPhases(skills: seq<Skill>, ranked: seq<KnowledgeCard>, maxCards: nat)
    requires DistinctBy(CardId, ranked) && DistinctSkills(skills)
    ensures PhaseTwo(ranked, maxCards, PhaseOne(skills, ranked, maxCards, []))
         == FirstTaken(skills, ranked, maxCards) + LaterTaken(skills, ranked, maxCards)
  {
    PhaseOneTakesBests(skills, ranked, maxCards, []);
    assert [] + Bests(skills, ranked) == Bests(skills, ranked);
    PhaseTwoTakesOthers(ranked, maxCards, FirstTaken(skills, ranked, maxCards));
  }

  lemma AllocatedIs(skills: seq<Skill>, cards: seq<KnowledgeCard>, maxCards: nat)
    requires Allocatable(skills, cards)
    ensures Allocated(skills, cards, maxCards)
         == FirstTaken(skills, StableSort(CardLeq, cards), maxCards)
           + LaterTaken(skills, StableSort(CardLeq, cards), maxCards)
  {
    RankedCards(cards);
    BothPhases(skills, StableSort(CardLeq, cards), maxCards);
  }

  lemma FirstTakenAre(skills: seq<Skill>, ranked: seq<KnowledgeCard>, maxCards: nat)
    requires DistinctBy(CardId, ranked) && DistinctSkills(skills)
    ensures forall c :: c in FirstTaken(skills, ranked, maxCards) ==>
              c in ranked && HasCard(FirstTaken(skills, ranked, maxCards), c.cardId)
    ensures DistinctBy(CardId, FirstTaken(skills, ranked, maxCards))
  {
    BestsAre(skills, ranked);
    var first := FirstTaken(skills, ranked, maxCards);
    forall c | c in first
      ensures c in ranked && HasCard(first, c.cardId)
    {
      var i :| 0 <= i < |first| && first[i] == c;
      assert first[i] in Bests(skills, ranked);
      assert CardId(first[i]) == c.cardId;
    }
  }

  /** Together the first taken and all others are the ranked cards. */
  lemma OthersComplete(ranked: seq<KnowledgeCard>, first: seq<KnowledgeCard>)
    requires DistinctBy(CardId, ranked) && Sorted(CardLeq, ranked)
    requires DistinctBy(CardId, first) && forall c :: c in first ==> c in ranked && HasCard(first, c.cardId)
    ensures DistinctBy(CardId, first + Others(ranked, first))
    ensures |first| + |Others(ranked, first)| == |ranked|
  {
    var others := Others(ranked, first);
    OthersAre(ranked, first);
    forall i, j | 0 <= i < |first| && 0 <= j < |others|
      ensures CardId(first[i]) != CardId(others[j])
    {
      assert others[j] in others && CardId(first[i]) == first[i].cardId;
    }
    forall c
      ensures c in first + others <==> c in ranked
    {
      if c in ranked && HasCard(first, c.cardId) {
        var i :| 0 <= i < |first| && CardId(first[i]) == c.cardId;
        assert first[i] in first;
        SameKeySame(CardId, ranked, first[i], c);
      }
    }
    SameMembersSameLength(CardId, first + others, ranked);
  }

  lemma SomeBest(skills: seq<Skill>, ranked: seq<KnowledgeCard>, c: KnowledgeCard, i: int)
    requires DistinctBy(CardId, ranked) && DistinctSkills(skills)
    requires c in ranked && 0 <= i < |skills| && skills[i].skillId == c.skillId
    ensures Bests(skills, ranked) != []
  {
    BestOfIs(ranked, skills[i].skillId);
    BestsAre(skills, ranked);
  }

  /** No card is taken twice, all are eligible, and as many are taken as the limit and the eligible
      cards allow. A limit of zero still lets phase one take a card. */
  lemma AllocationFillsPlaces(skills: seq<Skill>, cards: seq<KnowledgeCard>, maxCards: nat)
    requires Allocatable(skills, cards)
    ensures var taken := Allocated(skills, cards, maxCards);
            && DistinctBy(CardId, taken)
            && (forall c :: c in taken ==> c in cards)
            && |taken| == if |cards| <= AtLeastOne(maxCards) then |cards| else AtLeastOne(maxCards)
  {
    AllocatedIs(skills, cards, maxCards);
    RankedCards(cards);
    var ranked := StableSort(CardLeq, cards);
    FirstTakenAre(skills, ranked, maxCards);
    var first := FirstTaken(skills, ranked, maxCards);
    OthersComplete(ranked, first);
    OthersAre(ranked, first);
    var others := Others(ranked, first);
    assert first + LaterTaken(skills, ranked, maxCards) <= first + others;
    if cards != [] {
      assert cards[0] in ranked;
      var i :| 0 <= i < |skills| && skills[i].skillId == cards[0].skillId;
      SomeBest(skills, ranked, cards[0], i);
    }
  }

  lemma {:induction false} BestIsFirst(ranked: seq<KnowledgeCard>, skillId: string, c: KnowledgeCard)
    requires Sorted(CardLeq, ranked) && TotalPreorder(CardLeq) && c in ranked && c.skillId == skillId
    ensures BestOf(ranked, skillId).Some? && CardLeq(BestOf(ranked, skillId).value, c)
  {
    if ranked[0].skillId == skillId {
      assert CardLeq(ranked[0], ranked[0]);
    } else {
      BestIsFirst(ranked[1..], skillId, c);
    }
  }

  /** When there are places for all skills, every skill with an eligible card keeps its best one. */
  lemma EverySkillKeepsItsBest(skills: seq<Skill>, cards: seq<KnowledgeCard>, maxCards: nat, i: int)
    requires Allocatable(skills, cards) && |skills| <= maxCards
    requires 0 <= i < |skills| && exists c :: c in cards && c.skillId == skills[i].skillId
    ensures exists best :: best in Allocated(skills, cards, maxCards) && best.skillId == skills[i].skillId
              && forall c :: c in cards && c.skillId == skills[i].skillId ==> RanksAbove(best, c)
  {
    AllocatedIs(skills, cards, maxCards);
    RankedCards(cards);
    CardLeqIsPreorder();
    var ranked := StableSort(CardLeq, cards);
    BestsAre(skills, ranked);
    BestOfIs(ranked, skills[i].skillId);
    var best := BestOf(ranked, skills[i].skillId).value;
    assert best in FirstTaken(skills, ranked, maxCards);
    forall c | c in cards && c.skillId == skills[i].skillId
      ensures RanksAbove(best, c)
    {
      BestIsFirst(ranked, skills[i].skillId, c);
      BeforeMeans(best.score, best.cardId, c.score, c.cardId);
    }
  }

  /** Everything taken after the skills' best cards ranks at least as high as anything left out. */
  lemma LeftOutRankLast(skills: seq<Skill>, cards: seq<KnowledgeCard>, maxCards: nat, i: int, c: KnowledgeCard)
    requires Allocatable(skills, cards)
    requires |FirstTaken(skills, StableSort(CardLeq, cards), maxCards)| <= i < |Allocated(skills, cards, maxCards)|
    requires c in cards && c !in Allocated(skills, cards, maxCards)
    ensures RanksAbove(Allocated(skills, cards, maxCards)[i], c)
  {
    var later := Allocated(skills, cards, maxCards)[i];
    LeftOutIsLater(skills, cards, maxCards, i, c);
    BeforeMeans(later.score, later.cardId, c.score, c.cardId);
  }

  lemma LeftOutIsLater(skills: seq<Skill>, cards: seq<KnowledgeCard>, maxCards: nat, i: int, c: KnowledgeCard)
    requires Allocatable(skills, cards)
    requires |FirstTaken(skills, StableSort(CardLeq, cards), maxCards)| <= i < |Allocated(skills, cards, maxCards)|
    requires c in cards && c !in Allocated(skills, cards, maxCards)
    ensures CardLeq(Allocated(skills, cards, maxCards)[i], c)
  {
    AllocatedIs(skills, cards, maxCards);
    RankedCards(cards);
    var ranked := StableSort(CardLeq, cards);
    var first, later := FirstTaken(skills, ranked, maxCards), LaterTaken(skills, ranked, maxCards);
    FirstTakenAre(skills, ranked, maxCards);
    OthersAre(ranked, first);
    var others := Others(ranked, first);
    if HasCard(first, c.cardId) {
      var j :| 0 <= j < |first| && CardId(first[j]) == c.cardId;
      assert first[j] in first;
      SameKeySame(CardId, ranked, first[j], c);
    }
    var j :| 0 <= j < |others| && others[j] == c;
    assert j >= |later|;
    assert later[i - |first|] == others[i - |first|];
  }

  // ---------------------------------------------------------------- the selection

  function SkillIds(skills: seq<Skill>): set<string> {
    set s | s in skills :: s.skillId
  }

  function SkillItemId(item: SkillItem): string {
    item.id
  }

  function CardItemId(item: CardItem): string {
    item.id
  }

  function SituationFor(
    t: TextOps, route: string, signals: set<string>, files: seq<ChangedFile>, skills: seq<Skill>): (s: Situation)
    ensures |s.paths| == |s.patches|
  {
    Situation(route, SkillIds(skills), signals,
              Each((f: ChangedFile) => t.lower(f.path), files),
              Each((f: ChangedFile) => t.lower(DiffReaders.ReviewablePatchText(f.patch)), files))
  }

  function EligibleCards(s: Situation, items: seq<CardItem>): seq<KnowledgeCard>
    requires |s.paths| == |s.patches|
  {
    Passing((item: CardItem) => Eligible(s, item), items)
  }

  /** The loop over the skills of the manifest, then sorting and cutting. */
  method SelectSkills(route: string, signals: set<string>, items: seq<SkillItem>, maxSkills: nat)
    returns (ranked: seq<Skill>, selected: seq<Skill>)
    ensures ranked == RankedSkills(route, signals, items)
    ensures selected == SelectedSkills(route, signals, items, maxSkills)
  {
    ghost var check := (item: SkillItem) => SkillFor(route, signals, item);
    ranked := [];
    for i := 0 to |items|
      invariant ranked == Passing(check, items[..i])
    {
      PassingNext(check, items, i);
      var skill := SkillFor(route, signals, items[i]);
      if skill.Some? {
        ranked := ranked + [skill.value];
      }
    }
    assert items[..|items|] == items;
    ranked := StableSort(SkillLeq, ranked);
    selected := Take(ranked, maxSkills);
  }

  /** The loop over the knowledge cards. */
  method CollectCards(s: Situation, items: seq<CardItem>) returns (cards: seq<KnowledgeCard>)
    requires |s.paths| == |s.patches|
    ensures cards == EligibleCards(s, items)
  {
    ghost var check := (item: CardItem) => Eligible(s, item);
    cards := [];
    for i := 0 to |items|
      invariant cards == Passing(check, items[..i])
    {
      PassingNext(check, items, i);
      var card := Eligible(s, items[i]);
      if card.Some? {
        cards := cards + [card.value];
      }
    }
    assert items[..|items|] == items;
  }

  lemma SkillsDistinct(route: string, signals: set<string>, items: seq<SkillItem>, maxSkills: nat)
    requires DistinctBy(SkillItemId, items)
    ensures DistinctSkills(SelectedSkills(route, signals, items, maxSkills))
  {
    var check := (item: SkillItem) => SkillFor(route, signals, item);
    var key := (s: Skill) => s.skillId;
    var passed := Passing(check, items);
    PassingDistinct(check, SkillItemId, key, items);
    SkillLeqIsPreorder();
    SortPermutes(SkillLeq, passed);
    PermutedDistinct(key, passed, StableSort(SkillLeq, passed));
    var sorted := StableSort(SkillLeq, passed);
    var selected := Take(sorted, maxSkills);
    forall i, j | 0 <= i < j < |selected|
      ensures selected[i].skillId != selected[j].skillId
    {
      assert key(sorted[i]) != key(sorted[j]);
    }
  }

  lemma EligibleHasSkill(s: Situation, item: CardItem)
    requires |s.paths| == |s.patches|
    ensures Eligible(s, item).Some? ==>
              Eligible(s, item).value.skillId in s.skillIds && Eligible(s, item).value.cardId == item.id
  {
  }

  /** The IDs that loading the manifest has checked to be unique make every selection one that the
      card allocation is fair on. */
  lemma SelectionIsAllocatable(
    t: TextOps, route: string, signals: set<string>, files: seq<ChangedFile>, skillItems: seq<SkillItem>,
    cardItems: seq<CardItem>, maxSkills: nat)
    requires DistinctBy(SkillItemId, skillItems) && DistinctBy(CardItemId, cardItems)
    ensures var skills := SelectedSkills(route, signals, skillItems, maxSkills);
            Allocatable(skills, EligibleCards(SituationFor(t, route, signals, files, skills), cardItems))
  {
    var skills := SelectedSkills(route, signals, skillItems, maxSkills);
    SkillsDistinct(route, signals, skillItems, maxSkills);
    var s := SituationFor(t, route, signals, files, skills);
    EligibleAre(s, skills, cardItems);
  }

  lemma EligibleAre(s: Situation, skills: seq<Skill>, items: seq<CardItem>)
    requires |s.paths| == |s.patches| && s.skillIds == SkillIds(skills) && DistinctBy(CardItemId, items)
    ensures DistinctBy(CardId, EligibleCards(s, items))
    ensures forall c :: c in EligibleCards(s, items) ==> exists i :: 0 <= i < |skills| && skills[i].skillId == c.skillId
  {
    var check := (item: CardItem) => Eligible(s, item);
    forall item: CardItem
      ensures check(item).Some? ==> CardId(check(item).value) == CardItemId(item)
    {
      EligibleHasSkill(s, item);
    }
    PassingDistinct(check, CardItemId, CardId, items);
    forall c | c in EligibleCards(s, items)
      ensures exists i :: 0 <= i < |skills| && skills[i].skillId == c.skillId
    {
      PassingSource(check, items, c);
      var item :| item in items && check(item) == Some(c);
      EligibleHasSkill(s, item);
    }
  }

  // ---------------------------------------------------------------- all that is selected

  /** The signals of the diff, and those that the measurements add. */
  function AllSignals(signals: set<string>, metrics: seq<ComplexityMetric>): set<string> {
    signals
    + (if metrics == [] then {} else {"complexity_measured"})
    + (if exists m :: m in metrics && m.exceededThreshold && m.delta > 0 then {"complexity_regression"} else {})
  }

  function TypesOf(skills: seq<Skill>): seq<string> {
    if skills == [] then [] else skills[0].policyTypes + TypesOf(skills[1..])
  }

  lemma {:induction false} TypesAre(skills: seq<Skill>)
    ensures forall p :: p in TypesOf(skills) <==> exists i :: 0 <= i < |skills| && p in skills[i].policyTypes
  {
    if skills != [] {
      TypesAre(skills[1..]);
      forall i, p | 0 < i < |skills| && p in skills[i].policyTypes
        ensures p in TypesOf(skills[1..])
      {
        assert skills[1..][i - 1] == skills[i];
      }
    }
  }

  datatype Harness = Harness(
    signals: set<string>, skills: seq<Skill>, cards: seq<KnowledgeCard>,
    policyTypes: seq<string>, candidatePolicyTypes: seq<string>)

  /** The types are those of the skills, in order and without repetition. */
  ghost predicate AreTypesOf(types: seq<string>, skills: seq<Skill>) {
    && Sorted(StringLeq, types) && (forall i, j :: 0 <= i < j < |types| ==> types[i] != types[j])
    && forall p :: p in types <==> exists i :: 0 <= i < |skills| && p in skills[i].policyTypes
  }

  lemma TypesMean(skills: seq<Skill>)
    ensures AreTypesOf(SortedSet(TypesOf(skills)), skills)
  {
    SortedSetMeans(TypesOf(skills));
    TypesAre(skills);
  }

  /** The manifest with the limits of the route, and what a request's signals are found by. */
  datatype Manifest = Manifest(
    diffSignals: seq<ChangedFile> -> set<string>, skillItems: seq<SkillItem>, cardItems: seq<CardItem>,
    maxSkills: nat, maxCards: nat)

  function Selection(
      t: TextOps, m: Manifest, route: string, files: seq<ChangedFile>, metrics: seq<ComplexityMetric>): Harness {
    var signals := AllSignals(m.diffSignals(files), metrics);
    var skills := SelectedSkills(route, signals, m.skillItems, m.maxSkills);
    var eligible := EligibleCards(SituationFor(t, route, signals, files, skills), m.cardItems);
    Harness(signals, skills, Allocated(skills, eligible, m.maxCards), SortedSet(TypesOf(skills)),
            SortedSet(TypesOf(RankedSkills(route, signals, m.skillItems))))
  }

  /** As many of the eligible cards as there are places, and none of them twice. */
  ghost predicate FillsPlaces(cards: seq<KnowledgeCard>, eligible: seq<KnowledgeCard>, maxCards: nat) {
    && DistinctBy(CardId, cards) && (forall c :: c in cards ==> c in eligible)
    && |cards| == if |eligible| <= AtLeastOne(maxCards) then |eligible| else AtLeastOne(maxCards)
  }

  /** The best skills and, of the cards that are eligible for them, as many as there are places, none
      of them twice, where the manifest has no ID twice; with the policy types of the selected skills
      and of all candidates. */
  method Select(t: TextOps, m: Manifest, route: string, files: seq<ChangedFile>, metrics: seq<ComplexityMetric>)
    returns (h: Harness)
    ensures h == Selection(t, m, route, files, metrics)
    ensures AreTypesOf(h.policyTypes, h.skills)
    ensures AreTypesOf(h.candidatePolicyTypes, RankedSkills(route, h.signals, m.skillItems))
    ensures DistinctBy(SkillItemId, m.skillItems) && DistinctBy(CardItemId, m.cardItems) ==>
              var s := SituationFor(t, route, h.signals, files, h.skills);
              FillsPlaces(h.cards, EligibleCards(s, m.cardItems), m.maxCards)
  {
    var signals := AllSignals(m.diffSignals(files), metrics);
    var ranked, skills := SelectSkills(route, signals, m.skillItems, m.maxSkills);
    var eligible := CollectCards(SituationFor(t, route, signals, files, skills), m.cardItems);
    var cards := AllocateCards(skills, eligible, m.maxCards);
    h := Harness(signals, skills, cards, SortedSet(TypesOf(skills)), SortedSet(TypesOf(ranked)));
    TypesMean(skills);
    TypesMean(ranked);
    if DistinctBy(SkillItemId, m.skillItems) && DistinctBy(CardItemId, m.cardItems) {
      SelectionIsAllocatable(t, route, signals, files, m.skillItems, m.cardItems, m.maxSkills);
      AllocationFillsPlaces(skills, eligible, m.maxCards);
    }
  }
}
