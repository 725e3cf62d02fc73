/** What a selection of skills and cards comes to, in scores and in what is found in the files. */
module HarnessChoice {
  import opened Text
  import opened Schemas
  import opened Sorting
  import opened Lists
  import opened PolicyHarness
  import DiffReaders

  // ---------------------------------------------------------------- skills

  predicate AlwaysOn(route: string, item: SkillItem) {
    item.always || route in item.alwaysRoutes
  }

  /** A skill is a candidate if and only if it is for the route, and is always on there or has one of the
      signals; then it carries its ID and policy types. */
  lemma CandidateExactly(route: string, signals: set<string>, item: SkillItem)
    ensures SkillFor(route, signals, item).Some?
       <==> route in item.routes && (AlwaysOn(route, item) || exists x :: x in item.signals && x in signals)
    ensures SkillFor(route, signals, item).Some? ==>
              var skill := SkillFor(route, signals, item).value;
              skill.skillId == item.id && skill.policyTypes == item.policyTypes
  {
    if x :| x in item.signals && x in signals {
      assert x in item.signals * signals;
    }
  }

  /** Without signals an always-on skill scores its priority and a hundred. */
  lemma ScoreOfAlwaysOn(route: string, item: SkillItem)
    requires route in item.routes && AlwaysOn(route, item)
    ensures SkillFor(route, {}, item).value.score == item.priority + 100
  {
    assert item.signals * {} == {};
  }

  /** A skill that needs a signal scores its priority and twenty for the first one. */
  lemma ScoreOfOneSignal(route: string, item: SkillItem, signal: string)
    requires route in item.routes && !AlwaysOn(route, item) && signal in item.signals
    ensures SkillFor(route, {signal}, item).value.score == item.priority + 20
  {
    assert item.signals * {signal} == {signal};
  }

  /** Every further signal that a candidate matches adds twenty, any other signal nothing. */
  lemma ScoreOfMoreSignals(route: string, signals: set<string>, item: SkillItem, signal: string)
    requires SkillFor(route, signals, item).Some? && signal !in signals
    ensures SkillFor(route, signals + {signal}, item).Some?
    ensures SkillFor(route, signals + {signal}, item).value.score
         == SkillFor(route, signals, item).value.score + if signal in item.signals then 20 else 0
  {
    var matched, more := item.signals * signals, item.signals * (signals + {signal});
    assert more == if signal in item.signals then matched + {signal} else matched;
  }

  /** The skill has the higher score, or the same and the ID that comes first. */
  ghost predicate ComesFirst(a: Skill, b: Skill) {
    a.score >= b.score && (a.score == b.score ==> FirstInAlphabet(a.skillId, b.skillId))
  }

  lemma SkillOrderMeans(a: Skill, b: Skill)
    ensures SkillLeq(a, b) <==> ComesFirst(a, b)
  {
    BeforeMeans(a.score, a.skillId, b.score, b.skillId);
  }

  lemma RankedAreCandidates(route: string, signals: set<string>, items: seq<SkillItem>, skill: Skill)
    ensures skill in RankedSkills(route, signals, items)
       <==> exists item :: item in items && SkillFor(route, signals, item) == Some(skill)
  {
    var check := (item: SkillItem) => SkillFor(route, signals, item);
    var passing := Passing(check, items);
    SortPermutes(SkillLeq, passing);
    SameElements(RankedSkills(route, signals, items), passing);
    if skill in passing {
      PassingSource(check, items, skill);
    }
    if item :| item in items && SkillFor(route, signals, item) == Some(skill) {
      PassingHas(check, items, item);
    }
  }

  /** Of the candidates those with the highest scores are selected, and they come in that order. */
  lemma SkillsByScore(route: string, signals: set<string>, items: seq<SkillItem>, maxSkills: nat)
    ensures var selected := SelectedSkills(route, signals, items, maxSkills);
            && (forall i, j :: 0 <= i < j < |selected| ==> ComesFirst(selected[i], selected[j]))
            && (forall skill :: skill in selected ==>
                  exists item :: item in items && SkillFor(route, signals, item) == Some(skill))
            && (forall kept, item |
                  && kept in selected && item in items && SkillFor(route, signals, item).Some?
                  && SkillFor(route, signals, item).value !in selected
                  :: |selected| == maxSkills && ComesFirst(kept, SkillFor(route, signals, item).value))
  {
    var passing := Passing((item: SkillItem) => SkillFor(route, signals, item), items);
    var selected := SelectedSkills(route, signals, items, maxSkills);
    SkillLeqIsPreorder();
    SortSorted(SkillLeq, passing);
    forall i, j | 0 <= i < j < |selected|
      ensures ComesFirst(selected[i], selected[j])
    {
      SkillOrderMeans(selected[i], selected[j]);
    }
    forall skill | skill in selected
      ensures exists item :: item in items && SkillFor(route, signals, item) == Some(skill)
    {
      RankedAreCandidates(route, signals, items, skill);
    }
    forall kept, item | kept in selected && item in items && SkillFor(route, signals, item).Some?
                        && SkillFor(route, signals, item).value !in selected
      ensures |selected| == maxSkills && ComesFirst(kept, SkillFor(route, signals, item).value)
    {
      CutSkillIsNoBetter(route, signals, items, maxSkills, kept, item);
    }
  }

  lemma CutSkillIsNoBetter(
      route: string, signals: set<string>, items: seq<SkillItem>, maxSkills: nat, kept: Skill, item: SkillItem)
    requires kept in SelectedSkills(route, signals, items, maxSkills)
    requires item in items && SkillFor(route, signals, item).Some?
    requires SkillFor(route, signals, item).value !in SelectedSkills(route, signals, items, maxSkills)
    ensures |SelectedSkills(route, signals, items, maxSkills)| == maxSkills
    ensures ComesFirst(kept, SkillFor(route, signals, item).value)
  {
    var check := (item: SkillItem) => SkillFor(route, signals, item);
    var passing, cut := Passing(check, items), SkillFor(route, signals, item).value;
    SkillLeqIsPreorder();
    PassingHas(check, items, item);
    RankedAreCandidates(route, signals, items, cut);
    KeptBeforeCut(SkillLeq, passing, maxSkills, kept, cut);
    SkillOrderMeans(kept, cut);
  }

  // ---------------------------------------------------------------- markers

  /** A character that may continue a word: a small letter, a digit or an underscore. */
  predicate Continues(c: char) {
    c in "abcdefghijklmnopqrstuvwxyz0123456789_"
  }

  lemma LettersAre(c: char)
    ensures 'a' <= c <= 'z' <==> c in "abcdefghijklmnopqrstuvwxyz"
  {
    var letters := "abcdefghijklmnopqrstuvwxyz";
    assert forall i :: 0 <= i < 26 ==> letters[i] as int == 'a' as int + i;
    if 'a' <= c <= 'z' {
      assert c == letters[c as int - 'a' as int];
    }
  }

  lemma ContinuesMeans(c: char)
    ensures IsWordChar(c) <==> Continues(c)
  {
    var letters, others := "abcdefghijklmnopqrstuvwxyz", "0123456789_";
    LettersAre(c);
    assert '0' <= c <= '9' || c == '_' <==> c in others;
    assert letters + others == "abcdefghijklmnopqrstuvwxyz0123456789_";
    assert c in letters + others <==> c in letters || c in others;
  }

  lemma WordMeans(marker: string)
    ensures IsWord(marker) <==> marker != "" && forall c :: c in marker ==> Continues(c)
  {
    forall c
      ensures IsWordChar(c) <==> Continues(c)
    {
      ContinuesMeans(c);
    }
    if marker != "" && forall c :: c in marker ==> Continues(c) {
      assert forall i :: 0 <= i < |marker| ==> marker[i] in marker;
    }
  }

  /** The marker stands at this place; when it is a word, no neighbour continues it. */
  ghost predicate StandsAt(text: string, marker: string, i: int) {
    && 0 <= i && i + |marker| <= |text| && text[i..i + |marker|] == marker
    && (marker != "" && (forall c :: c in marker ==> Continues(c)) ==>
          && (i == 0 || !Continues(text[i - 1]))
          && (i + |marker| == |text| || !Continues(text[i + |marker|])))
  }

  lemma PlaceMeans(text: string, marker: string, i: int)
    ensures MarkerAt(text, marker, i) <==> StandsAt(text, marker, i)
  {
    WordMeans(marker);
    if 0 < i <= |text| {
      ContinuesMeans(text[i - 1]);
    }
    if 0 <= i + |marker| < |text| {
      ContinuesMeans(text[i + |marker|]);
    }
  }

  /** A word is found whole, anything else anywhere. */
  lemma MarkerMeans(text: string, marker: string)
    ensures ContainsMarker(text, marker) <==> exists i :: StandsAt(text, marker, i)
  {
    ContainsMarkerAt(text, marker);
    if i :| 0 <= i <= |text| && MarkerAt(text, marker, i) {
      PlaceMeans(text, marker, i);
    }
    if i :| StandsAt(text, marker, i) {
      PlaceMeans(text, marker, i);
    }
  }

  // ---------------------------------------------------------------- cards

  /** Some text has one of the markers. */
  ghost predicate Found(texts: seq<string>, markers: seq<string>) {
    exists i, m :: 0 <= i < |texts| && m in markers && ContainsMarker(texts[i], m)
  }

  /** Some file has one of the path markers in its path and one of the patch markers in its patch. */
  ghost predicate FoundTogether(s: Situation, item: CardItem)
    requires |s.paths| == |s.patches|
  {
    exists i, m, n ::
      && 0 <= i < |s.paths| && m in item.pathMarkers && ContainsMarker(s.paths[i], m)
      && n in item.patchMarkers && ContainsMarker(s.patches[i], n)
  }

  predicate PlainMarkers(markers: seq<string>) {
    forall m :: m in markers ==> m != "" && '\n' !in m
  }

  lemma FoundInJoined(texts: seq<string>, markers: seq<string>)
    requires PlainMarkers(markers)
    ensures Truthy(FirstFound(Join("\n", texts), markers)) <==> Found(texts, markers)
    ensures FirstFound(Join("\n", texts), markers).Some? <==> Found(texts, markers)
  {
    FoundIsMarker(Join("\n", texts), markers);
    forall m | m in markers
      ensures ContainsMarker(Join("\n", texts), m) <==> SomeContains(texts, m)
    {
      JoinedFindsSame(texts, m);
    }
    if i, m :| 0 <= i < |texts| && m in markers && ContainsMarker(texts[i], m) {
      assert SomeContains(texts, m);
    }
    if m :| m in markers && ContainsMarker(Join("\n", texts), m) {
      var i :| 0 <= i < |texts| && ContainsMarker(texts[i], m);
      assert Found(texts, markers);
    }
  }

  lemma {:induction false} FoundInOneFile(s: Situation, item: CardItem)
    requires |s.paths| == |s.patches|
    ensures SameFile(s.paths, s.patches, item).Some? <==> FoundTogether(s, item)
    decreases |s.paths|
  {
    if s.paths != [] {
      var rest := s.(paths := s.paths[1..], patches := s.patches[1..]);
      FoundInOneFile(rest, item);
      FoundIsMarker(s.paths[0], item.pathMarkers);
      FoundIsMarker(s.patches[0], item.patchMarkers);
      if FoundTogether(rest, item) {
        var i, m, n :| 0 <= i < |rest.paths| && m in item.pathMarkers && ContainsMarker(rest.paths[i], m)
                       && n in item.patchMarkers && ContainsMarker(rest.patches[i], n);
        assert ContainsMarker(s.paths[i + 1], m) && ContainsMarker(s.patches[i + 1], n);
      }
      if i, m, n :| 0 <= i < |s.paths| && m in item.pathMarkers && ContainsMarker(s.paths[i], m)
                    && n in item.patchMarkers && ContainsMarker(s.patches[i], n) && i > 0 {
        assert ContainsMarker(rest.paths[i - 1], m) && ContainsMarker(rest.patches[i - 1], n);
      }
    }
  }

  /** What a card asks for, of the selection so far and of the files. */
  ghost predicate Fits(s: Situation, item: CardItem)
    requires |s.paths| == |s.patches|
  {
    && item.skillId in s.skillIds && (item.routes == {} || s.route in item.routes)
    && (item.signals == {} || item.always || exists x :: x in item.signals && x in s.signals)
    && (item.requirePatch ==> Found(s.patches, item.patchMarkers))
    && (item.requirePathAndPatch ==> FoundTogether(s, item))
    && (item.pathMarkers + item.patchMarkers == [] || item.always
        || Found(s.paths, item.pathMarkers) || Found(s.patches, item.patchMarkers))
  }

  /** Twenty for each matched signal, ten for a path, ten for a patch, five for a card that is always on. */
  ghost function Points(s: Situation, item: CardItem): int {
    20 * |set x | x in item.signals && x in s.signals|
    + (if Found(s.paths, item.pathMarkers) then 10 else 0)
    + (if Found(s.patches, item.patchMarkers) then 10 else 0)
    + (if item.always then 5 else 0)
  }

  lemma TogetherIsFound(s: Situation, item: CardItem)
    requires |s.paths| == |s.patches| && FoundTogether(s, item)
    ensures Found(s.paths, item.pathMarkers) && Found(s.patches, item.patchMarkers)
  {
  }

  lemma MatchedSignals(s: Situation, item: CardItem)
    ensures item.signals * s.signals == set x | x in item.signals && x in s.signals
    ensures item.signals * s.signals != {} <==> exists x :: x in item.signals && x in s.signals
  {
    if x :| x in item.signals && x in s.signals {
      assert x in item.signals * s.signals;
    }
  }

  /** Read file by file: a card is eligible if and only if it fits, and then it scores its points. */
  lemma EligibleExactly(s: Situation, item: CardItem)
    requires |s.paths| == |s.patches| && PlainMarkers(item.pathMarkers) && PlainMarkers(item.patchMarkers)
    ensures Eligible(s, item)
         == if Fits(s, item) then
              Some(KnowledgeCard(item.id, item.skillId, item.severityCap, item.forbiddenClaimMarkers, Points(s, item)))
            else None
  {
    FoundInJoined(s.paths, item.pathMarkers);
    FoundInJoined(s.patches, item.patchMarkers);
    FoundInOneFile(s, item);
    MatchedSignals(s, item);
    var together := SameFile(s.paths, s.patches, item);
    if together.Some? {
      var i := SameFileAt(s.paths, s.patches, item);
      FoundIsMarker(s.paths[i], item.pathMarkers);
      FoundIsMarker(s.patches[i], item.patchMarkers);
      TogetherIsFound(s, item);
    }
    ByMarkersMeans(item, |item.signals * s.signals|, FirstFound(Join("\n", s.paths), item.pathMarkers),
                   FirstFound(Join("\n", s.patches), item.patchMarkers), together);
  }

  lemma ByMarkersMeans(
      item: CardItem, matched: nat, anyPath: Option<string>, anyPatch: Option<string>,
      together: Option<(string, string)>)
    requires together.Some? ==> together.value.0 != "" && together.value.1 != "" && Truthy(anyPath) && Truthy(anyPatch)
    ensures ByMarkers(item, matched, anyPath, anyPatch, together)
         == if && (item.requirePatch ==> Truthy(anyPatch)) && (item.requirePathAndPatch ==> together.Some?)
               && (item.pathMarkers + item.patchMarkers == [] || item.always || Truthy(anyPath) || Truthy(anyPatch))
            then Some(KnowledgeCard(item.id, item.skillId, item.severityCap, item.forbiddenClaimMarkers,
                                    20 * matched + (if Truthy(anyPath) then 10 else 0)
                                    + (if Truthy(anyPatch) then 10 else 0) + (if item.always then 5 else 0)))
            else None
  {
  }

  // ---------------------------------------------------------------- the whole selection

  /** The signals are those of the diff, that something was measured, and that something got too complex. */
  lemma SignalsAre(signals: set<string>, metrics: seq<ComplexityMetric>, x: string)
    ensures x in AllSignals(signals, metrics)
       <==> || x in signals || (x == "complexity_measured" && metrics != [])
            || (x == "complexity_regression" && exists m :: m in metrics && m.exceededThreshold && m.delta > 0)
  {
  }

  /** The situation of these files, lower-cased, after these skills have been selected. */
  ghost predicate IsSituation(
      t: TextOps, route: string, h: Harness, files: seq<ChangedFile>, s: Situation)
  {
    && s.route == route && s.signals == h.signals && |s.paths| == |s.patches| == |files|
    && (forall id :: id in s.skillIds <==> exists i :: 0 <= i < |h.skills| && h.skills[i].skillId == id)
    && forall i :: 0 <= i < |files| ==>
         && s.paths[i] == t.lower(files[i].path)
         && s.patches[i] == t.lower(DiffReaders.ReviewablePatchText(files[i].patch))
  }

  /** Every selected card is one of the manifest that is eligible for these files and skills. */
  lemma SelectedCardsFit(
      t: TextOps, m: Manifest, route: string, files: seq<ChangedFile>, metrics: seq<ComplexityMetric>,
      c: KnowledgeCard) returns (item: CardItem, s: Situation)
    requires DistinctBy(SkillItemId, m.skillItems) && DistinctBy(CardItemId, m.cardItems)
    requires c in Selection(t, m, route, files, metrics).cards
    ensures IsSituation(t, route, Selection(t, m, route, files, metrics), files, s)
    ensures item in m.cardItems && Eligible(s, item) == Some(c)
  {
    var h := Selection(t, m, route, files, metrics);
    s := SituationFor(t, route, h.signals, files, h.skills);
    SituationIsFor(t, route, h, files, s);
    SelectionIsAllocatable(t, route, h.signals, files, m.skillItems, m.cardItems, m.maxSkills);
    AllocationFillsPlaces(h.skills, EligibleCards(s, m.cardItems), m.maxCards);
    item := CardOfItem(s, m.cardItems, c);
  }

  lemma SituationIsFor(t: TextOps, route: string, h: Harness, files: seq<ChangedFile>, s: Situation)
    requires s == SituationFor(t, route, h.signals, files, h.skills)
    ensures IsSituation(t, route, h, files, s)
  {
    IdsAre(h.skills);
  }

  lemma CardOfItem(s: Situation, items: seq<CardItem>, c: KnowledgeCard) returns (item: CardItem)
    requires |s.paths| == |s.patches| && c in EligibleCards(s, items)
    ensures item in items && Eligible(s, item) == Some(c)
  {
    var check := (item: CardItem) => Eligible(s, item);
    PassingSource(check, items, c);
    item :| item in items && check(item) == Some(c);
  }

  lemma IdsAre(skills: seq<Skill>)
    ensures forall id :: id in SkillIds(skills) <==> exists i :: 0 <= i < |skills| && skills[i].skillId == id
  {
    forall i | 0 <= i < |skills|
      ensures skills[i].skillId in SkillIds(skills)
    {
      assert skills[i] in skills;
    }
  }
}
