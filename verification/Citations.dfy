/** review_graph.py, _build_prompt, with what comes before and after it: what the prompts of a review
    offer to be cited, and what validation accepts as a citation. */
module Citations {
  import opened Lists
  import opened Schemas
  import opened Text
  import opened FindingChecks
  import opened FindingValidation
  import opened PolicyHarness
  import opened ReviewQuality
  import PromptBuilder

  type Batch = PromptBuilder.PromptBatch

  // ---------------------------------------------------------------- what is offered

  function PolicyKey(p: PolicyChunk): (string, string) {
    (p.sourcePath, p.sectionTitle)
  }

  function SkillKey(s: Skill): string {
    s.skillId
  }

  function CardsOf(b: Batch): seq<KnowledgeCard> {
    if b.harness.None? then [] else b.harness.value.cards
  }

  function SkillsOf(b: Batch): seq<Skill> {
    if b.harness.None? then [] else b.harness.value.skills
  }

  /** What the batches have one after the other. */
  function Together<F>(part: Batch -> seq<F>, batches: seq<Batch>): seq<F> {
    if batches == [] then [] else Together(part, batches[..|batches| - 1]) + part(batches[|batches| - 1])
  }

  lemma {:induction false} TogetherHas<F>(part: Batch -> seq<F>, batches: seq<Batch>, x: F)
    ensures x in Together(part, batches) <==> exists i :: 0 <= i < |batches| && x in part(batches[i])
  {
    if batches != [] {
      var before := batches[..|batches| - 1];
      TogetherHas(part, before, x);
      assert forall i :: 0 <= i < |before| ==> before[i] == batches[i];
    }
  }

  function PoliciesIn(b: Batch): seq<PolicyChunk> {
    b.policies
  }

  // ---------------------------------------------------------------- what is merged for validation

  function MergedPolicies(batches: seq<Batch>): seq<PolicyChunk> {
    LastPerKey(PolicyKey, Together(PoliciesIn, batches))
  }

  /** The skills and cards of the batches, and what the whole request has where no batch has any. */
  function Applied(batches: seq<Batch>, whole: Harness): Harness {
    var skills := LastPerKey(SkillKey, Together(SkillsOf, batches));
    var cards := LastPerKey(CardId, Together(CardsOf, batches));
    var applied := if skills == [] then whole.skills else skills;
    whole.(skills := applied, cards := if cards == [] then whole.cards else cards,
           policyTypes := SortedSet(TypesOf(applied)))
  }

  /** One more assignment for each element. */
  method AssignAll<F, K(==)>(key: F -> K, all: seq<F>, dict: seq<F>, more: seq<F>) returns (result: seq<F>)
    requires dict == LastPerKey(key, all)
    ensures result == LastPerKey(key, all + more)
  {
    result := dict;
    assert all + more[..0] == all;
    for i := 0 to |more|
      invariant result == LastPerKey(key, all + more[..i])
    {
      assert all + more[..i + 1] == (all + more[..i]) + [more[i]];
      assert (all + more[..i + 1])[..|all| + i] == all + more[..i];
      result := Assigned(key, result, more[i]);
    }
    assert more[..|more|] == more;
  }

  method MergeBatches(batches: seq<Batch>, whole: Harness) returns (policies: seq<PolicyChunk>, applied: Harness)
    ensures policies == MergedPolicies(batches) && applied == Applied(batches, whole)
  {
    policies := [];
    var skills: seq<Skill>, cards: seq<KnowledgeCard> := [], [];
    for i := 0 to |batches|
      invariant policies == LastPerKey(PolicyKey, Together(PoliciesIn, batches[..i]))
      invariant skills == LastPerKey(SkillKey, Together(SkillsOf, batches[..i]))
      invariant cards == LastPerKey(CardId, Together(CardsOf, batches[..i]))
    {
      assert batches[..i + 1][..i] == batches[..i];
      policies := AssignAll(PolicyKey, Together(PoliciesIn, batches[..i]), policies, batches[i].policies);
      skills := AssignAll(SkillKey, Together(SkillsOf, batches[..i]), skills, SkillsOf(batches[i]));
      cards := AssignAll(CardId, Together(CardsOf, batches[..i]), cards, CardsOf(batches[i]));
    }
    assert batches[..|batches|] == batches;
    if skills == [] {
      skills := whole.skills;
    }
    applied := whole.(skills := skills, cards := if cards == [] then whole.cards else cards,
                      policyTypes := SortedSet(TypesOf(skills)));
  }

  // ---------------------------------------------------------------- what may be cited

  /** The prompt of some batch has a policy with this path, or this path and section. */
  ghost predicate SourceOffered(batches: seq<Batch>, source: string) {
    exists i, p :: 0 <= i < |batches| && p in batches[i].policies && (source == p.sourcePath || source == Canonical(p))
  }

  /** The prompt of some batch lists the card. */
  ghost predicate CardOffered(batches: seq<Batch>, id: string) {
    exists i :: 0 <= i < |batches| && HasKey(CardId, CardsOf(batches[i]), id)
  }

  lemma MergedHas(batches: seq<Batch>, p: PolicyChunk)
    ensures p in MergedPolicies(batches) ==> exists i :: 0 <= i < |batches| && p in batches[i].policies
    ensures (exists i :: 0 <= i < |batches| && p in batches[i].policies) ==>
              exists q :: q in MergedPolicies(batches) && PolicyKey(q) == PolicyKey(p)
  {
    var all := Together(PoliciesIn, batches);
    LastPerKeyMeans(PolicyKey, all);
    TogetherHas(PoliciesIn, batches, p);
    if p in all {
      var i :| 0 <= i < |all| && all[i] == p;
      assert HasKey(PolicyKey, all, PolicyKey(p));
      assert HasKey(PolicyKey, MergedPolicies(batches), PolicyKey(p));
    }
    if p in MergedPolicies(batches) {
      assert exists i :: 0 <= i < |batches| && p in PoliciesIn(batches[i]);
    }
  }

  /** Validation knows a policy source if and only if the prompt of some batch offers it. */
  lemma SourcesKnownExactly(batches: seq<Batch>, source: string)
    ensures source in CanonicalSources(MergedPolicies(batches)) <==> SourceOffered(batches, source)
  {
    CanonicalSourcesMean(MergedPolicies(batches), source);
    if p :| p in MergedPolicies(batches) && (source == p.sourcePath || source == Canonical(p)) {
      MergedHas(batches, p);
    }
    if i, p :| 0 <= i < |batches| && p in batches[i].policies && (source == p.sourcePath || source == Canonical(p)) {
      MergedHas(batches, p);
    }
  }

  lemma {:induction false} CardsKnown(cards: seq<KnowledgeCard>, id: string)
    ensures id in CardsById(cards) <==> HasKey(CardId, cards, id)
  {
    if cards != [] {
      var before := cards[..|cards| - 1];
      CardsKnown(before, id);
      HasKeyNext(CardId, before, cards[|cards| - 1]);
      assert cards == before + [cards[|cards| - 1]];
    }
  }

  lemma OfferedTogether<F>(part: Batch -> seq<F>, key: F -> string, batches: seq<Batch>, id: string)
    ensures HasKey(key, Together(part, batches), id)
       <==> exists i :: 0 <= i < |batches| && HasKey(key, part(batches[i]), id)
  {
    var all := Together(part, batches);
    if k :| 0 <= k < |all| && key(all[k]) == id {
      TogetherHas(part, batches, all[k]);
      var i :| 0 <= i < |batches| && all[k] in part(batches[i]);
      var j :| 0 <= j < |part(batches[i])| && part(batches[i])[j] == all[k];
      assert HasKey(key, part(batches[i]), id);
    }
    if i :| 0 <= i < |batches| && HasKey(key, part(batches[i]), id) {
      var j :| 0 <= j < |part(batches[i])| && key(part(batches[i])[j]) == id;
      TogetherHas(part, batches, part(batches[i])[j]);
    }
  }

  /** Some batch lists a card. */
  ghost predicate AnyCardOffered(batches: seq<Batch>) {
    exists id :: CardOffered(batches, id)
  }

  lemma NoneMerged<F>(key: F -> string, all: seq<F>)
    ensures LastPerKey(key, all) == [] <==> all == []
    ensures all != [] ==> HasKey(key, all, key(all[0]))
  {
  }

  lemma NoCardMerged(batches: seq<Batch>)
    ensures LastPerKey(CardId, Together(CardsOf, batches)) == [] <==> !AnyCardOffered(batches)
  {
    var all := Together(CardsOf, batches);
    NoneMerged(CardId, all);
    if all != [] {
      OfferedTogether(CardsOf, CardId, batches, CardId(all[0]));
      assert CardOffered(batches, CardId(all[0]));
    }
    if id :| CardOffered(batches, id) {
      OfferedTogether(CardsOf, CardId, batches, id);
    }
  }

  /** Validation knows a card if and only if some batch lists it; but where no batch lists any, it knows
      the cards that were selected for the whole request, which no prompt has listed. */
  lemma CardsKnownExactly(batches: seq<Batch>, whole: Harness, id: string)
    ensures id in CardsById(Applied(batches, whole).cards)
       <==> if AnyCardOffered(batches) then CardOffered(batches, id) else HasKey(CardId, whole.cards, id)
  {
    CardsKnown(Applied(batches, whole).cards, id);
    LastPerKeyMeans(CardId, Together(CardsOf, batches));
    OfferedTogether(CardsOf, CardId, batches, id);
    NoCardMerged(batches);
  }

  /** The prompt of some batch names the skill. */
  ghost predicate SkillOffered(batches: seq<Batch>, id: string) {
    exists i :: 0 <= i < |batches| && HasKey(SkillKey, SkillsOf(batches[i]), id)
  }

  ghost predicate AnySkillOffered(batches: seq<Batch>) {
    exists id :: SkillOffered(batches, id)
  }

  lemma NoSkillMerged(batches: seq<Batch>)
    ensures LastPerKey(SkillKey, Together(SkillsOf, batches)) == [] <==> !AnySkillOffered(batches)
  {
    var all := Together(SkillsOf, batches);
    NoneMerged(SkillKey, all);
    if all != [] {
      OfferedTogether(SkillsOf, SkillKey, batches, SkillKey(all[0]));
      assert SkillOffered(batches, SkillKey(all[0]));
    }
    if id :| SkillOffered(batches, id) {
      OfferedTogether(SkillsOf, SkillKey, batches, id);
    }
  }

  /** The review records the skills that some batch has, each once; where no batch has any, those of the whole
      request. Its policy types are the types of just these skills, and its signals are those of the request. */
  lemma SkillsKnownExactly(batches: seq<Batch>, whole: Harness)
    ensures var applied := Applied(batches, whole);
            && (forall id :: HasKey(SkillKey, applied.skills, id)
                        <==> if AnySkillOffered(batches) then SkillOffered(batches, id)
                             else HasKey(SkillKey, whole.skills, id))
            && AreTypesOf(applied.policyTypes, applied.skills)
            && applied.signals == whole.signals && applied.candidatePolicyTypes == whole.candidatePolicyTypes
  {
    var applied := Applied(batches, whole);
    LastPerKeyMeans(SkillKey, Together(SkillsOf, batches));
    NoSkillMerged(batches);
    forall id
      ensures HasKey(SkillKey, Together(SkillsOf, batches), id) <==> SkillOffered(batches, id)
    {
      OfferedTogether(SkillsOf, SkillKey, batches, id);
    }
    TypesMean(applied.skills);
  }

  /** So known and listed cards are the same if and only if some batch lists a card or none was selected
      for the whole request. */
  lemma CardsAgreeExactly(batches: seq<Batch>, whole: Harness)
    ensures (forall id :: id in CardsById(Applied(batches, whole).cards) <==> CardOffered(batches, id))
       <==> AnyCardOffered(batches) || whole.cards == []
  {
    if AnyCardOffered(batches) || whole.cards == [] {
      forall id
        ensures id in CardsById(Applied(batches, whole).cards) <==> CardOffered(batches, id)
      {
        CardsKnownExactly(batches, whole, id);
      }
    } else {
      var id := CardId(whole.cards[0]);
      CardsKnownExactly(batches, whole, id);
      assert HasKey(CardId, whole.cards, id) && !CardOffered(batches, id);
    }
  }

  // ---------------------------------------------------------------- what is accepted

  /** The inputs of validation in a review with these batches. */
  ghost predicate Validates(inputs: Inputs, batches: seq<Batch>, whole: Harness) {
    inputs.policies == MergedPolicies(batches) && inputs.cards == Applied(batches, whole).cards
  }

  /** What an accepted finding cites was offered: its policy in the prompt of some batch, under its path and
      section; its card too, unless no batch lists a card: then it is one of the whole request's. */
  lemma AcceptedCitations(
      t: TextOps, inputs: Inputs, batches: seq<Batch>, whole: Harness, findings: seq<Finding>, g: Finding)
    requires TextLaws(t) && Validates(inputs, batches, whole) && g in Accepted(t, inputs, findings)
    ensures Given(g.policySource) ==>
              exists i, p :: 0 <= i < |batches| && p in batches[i].policies && g.policySource.value == Canonical(p)
    ensures Given(g.cardId) ==>
              if AnyCardOffered(batches) then CardOffered(batches, g.cardId.value)
              else HasKey(CardId, whole.cards, g.cardId.value)
    ensures AnyCardOffered(batches) || whole.cards != [] ==> Given(g.cardId)
  {
    AcceptedAreShowable(t, inputs, findings);
    var tables := TablesOf(inputs);
    assert Showable(t, tables, g);
    if Given(g.policySource) {
      CanonicalSourcesMean(inputs.policies, g.policySource.value);
      var p :| p in inputs.policies && tables.sources[g.policySource.value] == Canonical(p);
      MergedHas(batches, p);
    }
    if Given(g.cardId) {
      CardsKnownExactly(batches, whole, g.cardId.value);
    }
    SomeCardKnown(batches, whole);
  }

  lemma SomeCardKnown(batches: seq<Batch>, whole: Harness)
    ensures AnyCardOffered(batches) || whole.cards != [] ==> CardsById(Applied(batches, whole).cards) != map[]
  {
    if id :| CardOffered(batches, id) {
      CardsKnownExactly(batches, whole, id);
    } else if whole.cards != [] {
      CardsKnownExactly(batches, whole, CardId(whole.cards[0]));
      assert HasKey(CardId, whole.cards, CardId(whole.cards[0]));
    }
  }

  /** What a prompt offers is not held against a finding that cites it, from whichever batch the finding
      is: its policy stays, under the name of an offered one, and its card is known. */
  lemma OfferedCitationsStay(inputs: Inputs, batches: seq<Batch>, whole: Harness, f: Finding)
    requires Validates(inputs, batches, whole)
    ensures Given(f.policySource) && SourceOffered(batches, f.policySource.value) ==>
              var kept := RepairedSource(TablesOf(inputs).sources, f.policySource);
              kept.Some? && SourceOffered(batches, kept.value)
    ensures Given(f.cardId) && CardOffered(batches, f.cardId.value) ==> f.cardId.value in TablesOf(inputs).cards
  {
    if Given(f.policySource) && SourceOffered(batches, f.policySource.value) {
      SourcesKnownExactly(batches, f.policySource.value);
      CanonicalIsFixed(inputs.policies);
      SourcesKnownExactly(batches, CanonicalSources(inputs.policies)[f.policySource.value]);
    }
    if Given(f.cardId) && CardOffered(batches, f.cardId.value) {
      CardsKnownExactly(batches, whole, f.cardId.value);
    }
  }
}
