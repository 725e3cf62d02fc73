/** prompt_builder.py: files are selected within a budget, packed into batches, and cut to a budget
    once more when a batch is written into its prompt. */
module PromptBuilder {
  import opened Text
  import opened AsciiText
  import opened Schemas
  import opened Sorting
  import PolicyHarness
  import Rag

  // ---------------------------------------------------------------- budgets

  datatype Budget = Budget(files: nat, chars: nat)

  /** ROUTE_PROMPT_BUDGETS.get(route, (20, 30_000)). */
  function PromptBudget(route: string): Budget {
    if route == SIMPLE_FAILURE_REVIEW then Budget(8, 12000)
    else if route == POLICY_CONTEXT_REVIEW then Budget(20, 30000)
    else if route == DEEP_QUALITY_REVIEW then Budget(30, 50000)
    else Budget(20, 30000)
  }

  /** ROUTE_BATCH_BUDGETS.get(route, (4, 6_000)). */
  function BatchBudget(route: string): Budget {
    if route == SIMPLE_FAILURE_REVIEW then Budget(4, 6000)
    else if route == POLICY_CONTEXT_REVIEW then Budget(4, 6000)
    else if route == DEEP_QUALITY_REVIEW then Budget(4, 7000)
    else Budget(4, 6000)
  }

  /** The most characters of one patch in a prompt. */
  const PATCH_LIMIT: nat := 4000

  // ---------------------------------------------------------------- review order

  const HIGH_RISK_PATH_KEYWORDS: seq<string> := [
    "auth", "iam", "jwt", "oauth", "permission", "policy", "security", "secret", "token", "payment",
    "billing", "migration", "migrations", "schema", "sql", "terraform", "infra", "docker", ".github/workflows"]

  const REVIEW_SIGNAL_MARKERS: seq<string> := [
    "authorization", "credential", "database", "execute(", "permission", "secret", "subprocess", "token"]

  predicate ContainsAny(text: string, markers: seq<string>) {
    exists i :: 0 <= i < |markers| && Contains(text, markers[i])
  }

  datatype Priority = Priority(risky: bool, signal: bool, lines: nat)

  /** _file_review_priority. */
  function PriorityOf(t: TextOps, f: ChangedFile): Priority {
    Priority(ContainsAny(t.lower(f.path), HIGH_RISK_PATH_KEYWORDS),
             ContainsAny(t.lower(f.patch), REVIEW_SIGNAL_MARKERS),
             f.additions + f.deletions)
  }

  /** Tuples compare left to right, and False is less than True. */
  predicate PriorityLeq(p: Priority, q: Priority) {
    if p.risky != q.risky then q.risky
    else if p.signal != q.signal then q.signal
    else p.lines <= q.lines
  }

  /** sorted(key=_file_review_priority, reverse=True): the higher priority comes first. */
  function ReviewOrder(t: TextOps): (ChangedFile, ChangedFile) -> bool {
    (a: ChangedFile, b: ChangedFile) => PriorityLeq(PriorityOf(t, b), PriorityOf(t, a))
  }

  lemma ReviewOrderIsPreorder(t: TextOps)
    ensures TotalPreorder(ReviewOrder(t))
  {
  }

  // ---------------------------------------------------------------- selection

  function Chars(files: seq<ChangedFile>): nat {
    if files == [] then 0 else |files[0].patch| + Chars(files[1..])
  }

  function CutPatch(patch: string, remaining: nat): string {
    Take(patch, if remaining < PATCH_LIMIT then remaining else PATCH_LIMIT)
  }

  /** What is selected of candidates in review order when `remaining` characters are left. */
  function SelectFrom(candidates: seq<ChangedFile>, remaining: nat): seq<ChangedFile> {
    if candidates == [] then []
    else if candidates[0].patch == "" then [candidates[0]] + SelectFrom(candidates[1..], remaining)
    else if remaining == 0 then SelectFrom(candidates[1..], remaining)
    else
      var patch := CutPatch(candidates[0].patch, remaining);
      [candidates[0].(patch := patch)] + SelectFrom(candidates[1..], remaining - |patch|)
  }

  /** As many files as the budget allows, in review order. */
  function Candidates(t: TextOps, files: seq<ChangedFile>, route: string): seq<ChangedFile> {
    Take(StableSort(ReviewOrder(t), files), PromptBudget(route).files)
  }

  function Selected(t: TextOps, files: seq<ChangedFile>, route: string): seq<ChangedFile> {
    SelectFrom(Candidates(t, files, route), PromptBudget(route).chars)
  }

  /** What one candidate adds, and what it leaves of the budget. */
  lemma SelectStep(candidates: seq<ChangedFile>, i: nat, remaining: nat, selected: seq<ChangedFile>)
    requires i < |candidates|
    ensures var f := candidates[i];
            var patch := CutPatch(f.patch, remaining);
            selected + SelectFrom(candidates[i..], remaining)
            == if f.patch == "" then (selected + [f]) + SelectFrom(candidates[i + 1..], remaining)
               else if remaining == 0 then selected + SelectFrom(candidates[i + 1..], remaining)
               else (selected + [f.(patch := patch)]) + SelectFrom(candidates[i + 1..], remaining - |patch|)
  {
  }

  method SelectedFilesForReview(t: TextOps, files: seq<ChangedFile>, route: string) returns (selected: seq<ChangedFile>)
    ensures selected == Selected(t, files, route)
  {
    var budget := PromptBudget(route);
    var candidates := Take(StableSort(ReviewOrder(t), files), budget.files);
    selected := [];
    assert candidates[0..] == candidates;
    var remaining: nat := budget.chars;
    for i := 0 to |candidates|
      invariant selected + SelectFrom(candidates[i..], remaining) == SelectFrom(candidates, budget.chars)
    {
      SelectStep(candidates, i, remaining, selected);
      if candidates[i].patch != "" {
        if remaining == 0 {
          continue;
        }
        var patch := CutPatch(candidates[i].patch, remaining);
        remaining := remaining - |patch|;
        selected := selected + [candidates[i].(patch := patch)];
      } else {
        selected := selected + [candidates[i]];
      }
    }
  }

  /** The characters that the per-patch limit alone would leave. */
  function LimitedChars(files: seq<ChangedFile>): nat {
    if files == [] then 0 else |CutPatch(files[0].patch, PATCH_LIMIT)| + LimitedChars(files[1..])
  }

  /** The budget after one candidate. */
  function LeftAfter(f: ChangedFile, remaining: nat): nat {
    if f.patch == "" || remaining == 0 then remaining else remaining - |CutPatch(f.patch, remaining)|
  }

  /** The budget is used as far as the candidates go, and never exceeded. */
  lemma {:induction false} SelectionUsesBudget(candidates: seq<ChangedFile>, remaining: nat)
    ensures Chars(SelectFrom(candidates, remaining))
         == if LimitedChars(candidates) <= remaining then LimitedChars(candidates) else remaining
  {
    if candidates != [] {
      SelectionUsesBudget(candidates[1..], LeftAfter(candidates[0], remaining));
    }
  }

  lemma {:induction false} SelectionIsSmall(candidates: seq<ChangedFile>, remaining: nat)
    ensures |SelectFrom(candidates, remaining)| <= |candidates|
    ensures forall f :: f in SelectFrom(candidates, remaining) ==> |f.patch| <= PATCH_LIMIT
  {
    if candidates != [] {
      SelectionIsSmall(candidates[1..], LeftAfter(candidates[0], remaining));
    }
  }

  /** f is a candidate whose patch may have been cut at its end. */
  predicate CutOf(f: ChangedFile, original: ChangedFile) {
    f.patch <= original.patch && f == original.(patch := f.patch)
  }

  predicate Increasing(places: seq<nat>) {
    forall i, j :: 0 <= i < j < |places| ==> places[i] < places[j]
  }

  /** The selected files are those at the given places of the candidates, in order, cut at most. */
  ghost predicate CutAtPlaces(selected: seq<ChangedFile>, candidates: seq<ChangedFile>, places: seq<nat>) {
    && |places| == |selected| && Increasing(places)
    && forall i :: 0 <= i < |places| ==> places[i] < |candidates| && CutOf(selected[i], candidates[places[i]])
  }

  function Shifted(places: seq<nat>): (r: seq<nat>)
    ensures |r| == |places| && forall i :: 0 <= i < |places| ==> r[i] == places[i] + 1
  {
    seq(|places|, i requires 0 <= i < |places| => places[i] + 1)
  }

  lemma ShiftedHas(places: seq<nat>, k: nat)
    requires k in places
    ensures k + 1 in Shifted(places)
  {
    var i :| 0 <= i < |places| && places[i] == k;
    assert Shifted(places)[i] == k + 1;
  }

  lemma SkipsFirst(selected: seq<ChangedFile>, candidates: seq<ChangedFile>, places: seq<nat>)
    requires candidates != []
    ensures CutAtPlaces(selected, candidates[1..], places) ==> CutAtPlaces(selected, candidates, Shifted(places))
  {
  }

  lemma TakesFirst(f: ChangedFile, selected: seq<ChangedFile>, candidates: seq<ChangedFile>, places: seq<nat>)
    requires candidates != [] && CutOf(f, candidates[0])
    ensures CutAtPlaces(selected, candidates[1..], places)
        ==> CutAtPlaces([f] + selected, candidates, [0] + Shifted(places))
  {
  }

  lemma {:induction false} SelectsEnough(candidates: seq<ChangedFile>, remaining: nat)
    requires LimitedChars(candidates) <= remaining
    ensures |SelectFrom(candidates, remaining)| == |candidates|
  {
    if candidates != [] {
      SelectsEnough(candidates[1..], LeftAfter(candidates[0], remaining));
    }
  }

  predicate HasAllEmpty(candidates: seq<ChangedFile>, places: seq<nat>) {
    forall k :: 0 <= k < |candidates| && candidates[k].patch == "" ==> k in places
  }

  lemma ShiftedHasAll(candidates: seq<ChangedFile>, places: seq<nat>)
    requires candidates != [] && HasAllEmpty(candidates[1..], places)
    ensures HasAllEmpty(candidates, [0] + Shifted(places))
    ensures candidates[0].patch != "" ==> HasAllEmpty(candidates, Shifted(places))
  {
    forall k | 0 < k < |candidates| && candidates[k].patch == ""
      ensures k in Shifted(places)
    {
      assert candidates[1..][k - 1] == candidates[k];
      ShiftedHas(places, k - 1);
    }
  }

  /** Every selected file is a candidate, in the order of the candidates and none of them twice; its
      patch is cut only at its end. Candidates without a patch are always selected, and all are when
      their limited patches fit. */
  lemma {:induction false} SelectionIsCut(candidates: seq<ChangedFile>, remaining: nat) returns (places: seq<nat>)
    ensures CutAtPlaces(SelectFrom(candidates, remaining), candidates, places)
    ensures HasAllEmpty(candidates, places)
    ensures LimitedChars(candidates) <= remaining ==> |SelectFrom(candidates, remaining)| == |candidates|
  {
    if LimitedChars(candidates) <= remaining {
      SelectsEnough(candidates, remaining);
    }
    if candidates == [] {
      places := [];
    } else {
      var f, left := candidates[0], LeftAfter(candidates[0], remaining);
      var selected := SelectFrom(candidates[1..], left);
      var later := SelectionIsCut(candidates[1..], left);
      ShiftedHasAll(candidates, later);
      if f.patch != "" && remaining == 0 {
        SkipsFirst(selected, candidates, later);
        places := Shifted(later);
      } else {
        var taken := f.(patch := CutPatch(f.patch, remaining));
        assert f.patch == "" ==> taken == f;
        TakesFirst(taken, selected, candidates, later);
        places := [0] + Shifted(later);
      }
    }
  }

  /** What is shown of a whole request: everything is selected uncut. */
  ghost predicate FitsWhole(files: seq<ChangedFile>, route: string) {
    && |files| <= PromptBudget(route).files && Chars(files) <= PromptBudget(route).chars
    && forall f :: f in files ==> |f.patch| <= PATCH_LIMIT
  }

  lemma SelectsFirst(f: ChangedFile, rest: seq<ChangedFile>, remaining: nat)
    requires |f.patch| <= remaining && |f.patch| <= PATCH_LIMIT
    ensures SelectFrom([f] + rest, remaining) == [f] + SelectFrom(rest, remaining - |f.patch|)
  {
    assert ([f] + rest)[1..] == rest;
    assert CutPatch(f.patch, remaining) == f.patch && f.(patch := f.patch) == f;
  }

  lemma {:induction false} SelectsAll(candidates: seq<ChangedFile>, remaining: nat)
    requires Chars(candidates) <= remaining && forall f :: f in candidates ==> |f.patch| <= PATCH_LIMIT
    ensures SelectFrom(candidates, remaining) == candidates
  {
    if candidates != [] {
      var f, rest := candidates[0], candidates[1..];
      assert f in candidates;
      SelectsAll(rest, remaining - |f.patch|);
      SelectsFirst(f, rest, remaining);
      assert [f] + rest == candidates;
    }
  }

  /** Nothing of a request is left out of its prompts, and no patch is cut, if and only if its files
      are few and small enough. */
  lemma NothingIsCut(t: TextOps, files: seq<ChangedFile>, route: string)
    ensures Selected(t, files, route) == StableSort(ReviewOrder(t), files) <==> FitsWhole(files, route)
  {
    var order := StableSort(ReviewOrder(t), files);
    SortPermutes(ReviewOrder(t), files);
    SameElements(order, files);
    CharsOfSorted(ReviewOrder(t), files);
    SelectedFit(t, files, route);
    SelectionIsSmall(Take(order, PromptBudget(route).files), PromptBudget(route).chars);
    if FitsWhole(files, route) {
      SelectsAll(order, PromptBudget(route).chars);
    }
  }

  // ---------------------------------------------------------------- packing

  function Flat(groups: seq<seq<ChangedFile>>): seq<ChangedFile> {
    if groups == [] then [] else groups[0] + Flat(groups[1..])
  }

  predicate Closes(current: seq<ChangedFile>, next: ChangedFile, budget: Budget) {
    current != [] && (|current| >= budget.files || Chars(current) + |next.patch| > budget.chars)
  }

  /** Next fit: the groups still to come when `current` is being filled. */
  function GroupFrom(files: seq<ChangedFile>, current: seq<ChangedFile>, budget: Budget): seq<seq<ChangedFile>>
    decreases files
  {
    if files == [] then if current == [] then [] else [current]
    else if Closes(current, files[0], budget) then [current] + GroupFrom(files[1..], [files[0]], budget)
    else GroupFrom(files[1..], current + [files[0]], budget)
  }

  lemma {:induction false} CharsConcat(a: seq<ChangedFile>, b: seq<ChangedFile>)
    ensures Chars(a + b) == Chars(a) + Chars(b)
  {
    if a == [] {
      assert a + b == b;
    } else {
      assert (a + b)[1..] == a[1..] + b;
      CharsConcat(a[1..], b);
    }
  }

  method GroupFiles(files: seq<ChangedFile>, budget: Budget) returns (groups: seq<seq<ChangedFile>>)
    ensures groups == GroupFrom(files, [], budget)
  {
    groups := [];
    var current: seq<ChangedFile> := [];
    var currentPatchChars := 0;
    for i := 0 to |files|
      invariant currentPatchChars == Chars(current)
      invariant groups + GroupFrom(files[i..], current, budget) == GroupFrom(files, [], budget)
    {
      assert files[i..][1..] == files[i + 1..];
      var patchChars := |files[i].patch|;
      if current != [] && (|current| >= budget.files || currentPatchChars + patchChars > budget.chars) {
        groups := groups + [current];
        current := [];
        currentPatchChars := 0;
      }
      CharsConcat(current, [files[i]]);
      assert [] + [files[i]] == [files[i]];
      current := current + [files[i]];
      currentPatchChars := currentPatchChars + patchChars;
    }
    if current != [] {
      groups := groups + [current];
    }
  }

  predicate WithinBudget(group: seq<ChangedFile>, budget: Budget) {
    group != [] && |group| <= budget.files && Chars(group) <= budget.chars
  }

  /** Packing keeps every file in order and every group within the budget of a batch. */
  lemma {:induction false} GroupsFit(files: seq<ChangedFile>, current: seq<ChangedFile>, budget: Budget)
    requires budget.files >= 1 && (current == [] || WithinBudget(current, budget))
    requires forall i :: 0 <= i < |files| ==> |files[i].patch| <= budget.chars
    ensures Flat(GroupFrom(files, current, budget)) == current + files
    ensures forall g :: g in GroupFrom(files, current, budget) ==> WithinBudget(g, budget)
    decreases files
  {
    if files != [] {
      if Closes(current, files[0], budget) {
        assert Chars([files[0]]) == |files[0].patch|;
        GroupsFit(files[1..], [files[0]], budget);
        assert current + ([files[0]] + files[1..]) == current + files;
      } else {
        CharsConcat(current, [files[0]]);
        GroupsFit(files[1..], current + [files[0]], budget);
        assert (current + [files[0]]) + files[1..] == current + files;
      }
    }
  }

  /** The number of groups, with m files and c characters to a group: each group that was closed
      because it was full holds m files, and each one closed for its characters holds, with the
      first file of the next, more than c of them. */
  lemma {:induction false} GroupCount(files: seq<ChangedFile>, current: seq<ChangedFile>, budget: Budget)
    requires budget.files >= 1
    ensures var k := |GroupFrom(files, current, budget)|;
            (k - 1) * (budget.files * budget.chars)
            <= (|current| + |files|) * budget.chars + budget.files * (Chars(current) + 2 * Chars(files))
    decreases files
  {
    var m, c := budget.files, budget.chars;
    if files != [] {
      var f := |files[0].patch|;
      var k := |GroupFrom(files, current, budget)|;
      if Closes(current, files[0], budget) {
        GroupCount(files[1..], [files[0]], budget);
        assert Chars([files[0]]) == f;
        ClosingStep(k, m, c, |current|, |files|, Chars(current), f, Chars(files[1..]));
      } else {
        GroupCount(files[1..], current + [files[0]], budget);
        CharsConcat(current, [files[0]]);
        assert Chars([files[0]]) == f;
        AppendStep(m, Chars(current) + f + 2 * Chars(files[1..]), Chars(current) + 2 * (f + Chars(files[1..])));
      }
    }
  }

  lemma AppendStep(m: nat, a: nat, b: nat)
    requires a <= b
    ensures m * a <= m * b
  {
  }

  /** One closed group pays for itself. */
  lemma ClosingStep(k: nat, m: nat, c: nat, n: nat, files: nat, chars: nat, f: nat, rest: nat)
    requires files >= 1 && (n >= m || chars + f > c)
    requires (k - 2) * (m * c) <= (1 + (files - 1)) * c + m * (f + 2 * rest)
    ensures (k - 1) * (m * c) <= (n + files) * c + m * (chars + 2 * (f + rest))
  {
    assert (k - 1) * (m * c) == (k - 2) * (m * c) + m * c;
    assert (n + files) * c == n * c + files * c;
    assert m * (chars + 2 * (f + rest)) == m * (f + 2 * rest) + m * (chars + f);
    if n >= m {
      assert n * c >= m * c;
      assert m * (chars + f) >= 0;
    } else {
      assert m * (chars + f) >= m * c;
      assert n * c >= 0;
    }
  }

  // ---------------------------------------------------------------- batches of a review

  /** The batches that are built: one empty batch when nothing was selected. */
  function Batches(t: TextOps, files: seq<ChangedFile>, route: string): seq<seq<ChangedFile>> {
    var groups := GroupFrom(Selected(t, files, route), [], BatchBudget(route));
    if groups == [] then [[]] else groups
  }

  lemma SelectedFit(t: TextOps, files: seq<ChangedFile>, route: string)
    ensures |Selected(t, files, route)| <= PromptBudget(route).files
    ensures Chars(Selected(t, files, route)) <= PromptBudget(route).chars
    ensures forall i :: 0 <= i < |Selected(t, files, route)| ==>
              |Selected(t, files, route)[i].patch| <= BatchBudget(route).chars
  {
    var candidates := Take(StableSort(ReviewOrder(t), files), PromptBudget(route).files);
    SelectionUsesBudget(candidates, PromptBudget(route).chars);
    SelectionIsSmall(candidates, PromptBudget(route).chars);
  }

  /** The most batches a route can need. */
  function MaxBatches(route: string): nat {
    if route == SIMPLE_FAILURE_REVIEW then 7 else if route == DEEP_QUALITY_REVIEW then 22 else 16
  }

  /** The batches hold the selected files in order, every batch fits its budget, and their number is
      bounded by the budgets of the route. */
  lemma BatchesFit(t: TextOps, files: seq<ChangedFile>, route: string)
    ensures var batches := Batches(t, files, route);
            && Flat(batches) == Selected(t, files, route)
            && (forall b :: b in batches ==> b == [] || WithinBudget(b, BatchBudget(route)))
            && 1 <= |batches| <= MaxBatches(route) <= 22
  {
    var selected, budget := Selected(t, files, route), BatchBudget(route);
    SelectedFit(t, files, route);
    GroupsFit(selected, [], budget);
    GroupCount(selected, [], budget);
    assert [] + selected == selected;
    CountBound(|GroupFrom(selected, [], budget)|, |selected|, Chars(selected), route);
  }

  lemma CountBound(k: nat, files: nat, chars: nat, route: string)
    requires files <= PromptBudget(route).files && chars <= PromptBudget(route).chars
    requires (k - 1) * (BatchBudget(route).files * BatchBudget(route).chars)
          <= (0 + files) * BatchBudget(route).chars + BatchBudget(route).files * (0 + 2 * chars)
    ensures k <= MaxBatches(route)
  {
  }

  /** One batch as it is built: its files, the measurements of these files, the policies and the harness
      that its prompt offers, its place, and the characters of its patches. */
  datatype PromptBatch = PromptBatch(
    files: seq<ChangedFile>, metrics: seq<ComplexityMetric>, policies: seq<PolicyChunk>,
    harness: Option<PolicyHarness.Harness>, index: nat, count: nat, patchChars: nat)

  /** What policies and cards are chosen by: the manifest, the scores of policies, the words of a request,
      and how many policies go into a batch. */
  datatype Guidance = Guidance(
    manifest: PolicyHarness.Manifest, sc: Rag.Scoring, words: seq<ChangedFile> -> set<string>, maxPolicies: nat)

  function Paths(files: seq<ChangedFile>): set<string> {
    set f | f in files :: f.path
  }

  /** The measurements of some files, in order. */
  function MetricsOf(metrics: seq<ComplexityMetric>, paths: set<string>): (own: seq<ComplexityMetric>)
    ensures forall m :: m in own <==> m in metrics && m.filePath in paths
  {
    if metrics == [] then []
    else (if metrics[0].filePath in paths then [metrics[0]] else []) + MetricsOf(metrics[1..], paths)
  }

  /** The request as far as batches are built from it, and the route. */
  datatype PromptInput = PromptInput(
    files: seq<ChangedFile>, metrics: seq<ComplexityMetric>, policies: seq<PolicyChunk>, route: string, useRag: bool)

  function HarnessOf(t: TextOps, guidance: Option<Guidance>, input: PromptInput, group: seq<ChangedFile>)
    : Option<PolicyHarness.Harness>
  {
    if guidance.None? then None
    else Some(PolicyHarness.Selection(t, guidance.value.manifest, input.route, group,
                                      MetricsOf(input.metrics, Paths(group))))
  }

  /** With retrieval, the best policies for these files of the types of their skills. */
  function PoliciesOf(t: TextOps, guidance: Option<Guidance>, input: PromptInput, group: seq<ChangedFile>)
    : seq<PolicyChunk>
  {
    if guidance.None? || !input.useRag then input.policies
    else
      var types := set p | p in HarnessOf(t, guidance, input, group).value.policyTypes;
      var query := Rag.Query(guidance.value.words(group), types);
      Rag.Ranked(guidance.value.sc, query, input.policies, guidance.value.maxPolicies)
  }

  function BatchOf(
      t: TextOps, guidance: Option<Guidance>, input: PromptInput, group: seq<ChangedFile>, index: nat, count: nat)
    : PromptBatch
  {
    PromptBatch(group, MetricsOf(input.metrics, Paths(group)), PoliciesOf(t, guidance, input, group),
                HarnessOf(t, guidance, input, group), index, count, Chars(group))
  }

  /** The batches of the groups, numbered from 1. */
  function BuiltFrom(t: TextOps, guidance: Option<Guidance>, input: PromptInput, groups: seq<seq<ChangedFile>>)
    : (batches: seq<PromptBatch>)
    ensures |batches| == |groups|
  {
    seq(|groups|, i requires 0 <= i < |groups| => BatchOf(t, guidance, input, groups[i], i + 1, |groups|))
  }

  function FilesOf(batches: seq<PromptBatch>): seq<seq<ChangedFile>> {
    Each((b: PromptBatch) => b.files, batches)
  }

  /** What a batch is to its place, and how much it holds. */
  predicate BatchFits(b: PromptBatch, i: nat, count: nat, route: string) {
    && (b.files == [] || WithinBudget(b.files, BatchBudget(route)))
    && b.index == i + 1 && b.count == count && b.patchChars == Chars(b.files) <= BatchBudget(route).chars
  }

  lemma BuiltBatchesFit(t: TextOps, guidance: Option<Guidance>, input: PromptInput, groups: seq<seq<ChangedFile>>)
    requires forall group :: group in groups ==> group == [] || WithinBudget(group, BatchBudget(input.route))
    ensures FilesOf(BuiltFrom(t, guidance, input, groups)) == groups
    ensures forall i :: 0 <= i < |groups| ==>
              BatchFits(BuiltFrom(t, guidance, input, groups)[i], i, |groups|, input.route)
  {
    forall i | 0 <= i < |groups|
      ensures BatchFits(BuiltFrom(t, guidance, input, groups)[i], i, |groups|, input.route)
    {
      assert groups[i] in groups;
    }
  }

  /** One batch: its own request, and what is chosen for it. */
  method BuildBatch(
    t: TextOps, guidance: Option<Guidance>, input: PromptInput, group: seq<ChangedFile>, index: nat, count: nat)
    returns (batch: PromptBatch)
    ensures batch == BatchOf(t, guidance, input, group, index, count)
  {
    var metrics := MetricsOf(input.metrics, Paths(group));
    var harness: Option<PolicyHarness.Harness> := None;
    var policies := input.policies;
    if guidance.Some? {
      var selected := PolicyHarness.Select(t, guidance.value.manifest, input.route, group, metrics);
      harness := Some(selected);
      if input.useRag {
        var types := set p | p in selected.policyTypes;
        var query := Rag.Query(guidance.value.words(group), types);
        policies := Rag.RankPolicyChunks(guidance.value.sc, query, input.policies, guidance.value.maxPolicies);
      }
    }
    batch := PromptBatch(group, metrics, policies, harness, index, count, Chars(group));
  }

  /** The batches hold the selected files, all of them and in order; each fits its budget, knows its place
      and size, and offers the policies and cards that are chosen for its own files. */
  method BuildReviewPromptBatches(t: TextOps, guidance: Option<Guidance>, input: PromptInput)
    returns (batches: seq<PromptBatch>)
    ensures batches == BuiltFrom(t, guidance, input, Batches(t, input.files, input.route))
    ensures FilesOf(batches) == Batches(t, input.files, input.route)
    ensures Flat(FilesOf(batches)) == Selected(t, input.files, input.route)
    ensures 1 <= |batches| <= MaxBatches(input.route)
    ensures forall i :: 0 <= i < |batches| ==> BatchFits(batches[i], i, |batches|, input.route)
  {
    var selected := SelectedFilesForReview(t, input.files, input.route);
    var groups := GroupFiles(selected, BatchBudget(input.route));
    if groups == [] {
      groups := [[]];
    }
    BatchesFit(t, input.files, input.route);
    BuiltBatchesFit(t, guidance, input, groups);
    batches := BuildAll(t, guidance, input, groups);
  }

  lemma BuiltNext(t: TextOps, guidance: Option<Guidance>, input: PromptInput, groups: seq<seq<ChangedFile>>, i: nat)
    requires i < |groups|
    ensures var all := BuiltFrom(t, guidance, input, groups);
            all[..i + 1] == all[..i] + [BatchOf(t, guidance, input, groups[i], i + 1, |groups|)]
  {
  }

  /** The loop over the groups. */
  method BuildAll(t: TextOps, guidance: Option<Guidance>, input: PromptInput, groups: seq<seq<ChangedFile>>)
    returns (batches: seq<PromptBatch>)
    ensures batches == BuiltFrom(t, guidance, input, groups)
  {
    batches := [];
    ghost var all := BuiltFrom(t, guidance, input, groups);
    for offset := 0 to |groups|
      invariant batches == all[..offset]
    {
      BuiltNext(t, guidance, input, groups, offset);
      var batch := BuildBatch(t, guidance, input, groups[offset], offset + 1, |groups|);
      batches := batches + [batch];
    }
    assert all[..|groups|] == all;
  }

  // ---------------------------------------------------------------- the second budget pass

  /** A file as it stands in a prompt; its patch is masked after it has been cut. */
  datatype Snapshot = Snapshot(
    path: string, status: string, additions: nat, deletions: nat, patch: string, truncated: bool)

  function SnapshotOf(mask: string -> string, f: ChangedFile, remaining: nat): Snapshot {
    var patch := CutPatch(f.patch, remaining);
    Snapshot(f.path, f.status, f.additions, f.deletions, mask(patch), |patch| < |f.patch|)
  }

  function SnapshotsFrom(mask: string -> string, files: seq<ChangedFile>, remaining: nat): seq<Snapshot> {
    if files == [] then []
    else
      var left := remaining - |CutPatch(files[0].patch, remaining)|;
      [SnapshotOf(mask, files[0], remaining)] + if left == 0 then [] else SnapshotsFrom(mask, files[1..], left)
  }

  function BatchSnapshots(t: TextOps, mask: string -> string, batch: seq<ChangedFile>, budget: Budget): seq<Snapshot> {
    SnapshotsFrom(mask, Take(StableSort(ReviewOrder(t), batch), budget.files), budget.chars)
  }

  lemma SnapshotStep(mask: string -> string, files: seq<ChangedFile>, i: nat, remaining: nat, snapshots: seq<Snapshot>)
    requires i < |files|
    ensures var left := remaining - |CutPatch(files[i].patch, remaining)|;
            var next := snapshots + [SnapshotOf(mask, files[i], remaining)];
            snapshots + SnapshotsFrom(mask, files[i..], remaining)
            == if left == 0 then next else next + SnapshotsFrom(mask, files[i + 1..], left)
  {
  }

  /** The loop over the chosen files. */
  method SnapshotFiles(mask: string -> string, files: seq<ChangedFile>, chars: nat) returns (snapshots: seq<Snapshot>)
    ensures snapshots == SnapshotsFrom(mask, files, chars)
  {
    var remaining: nat := chars;
    snapshots := [];
    ghost var all := SnapshotsFrom(mask, files, chars);
    assert files[0..] == files && [] + all == all;
    for i := 0 to |files|
      invariant snapshots + SnapshotsFrom(mask, files[i..], remaining) == all
    {
      SnapshotStep(mask, files, i, remaining, snapshots);
      snapshots := snapshots + [SnapshotOf(mask, files[i], remaining)];
      remaining := remaining - |CutPatch(files[i].patch, remaining)|;
      if remaining == 0 {
        return;
      }
    }
  }

  /** A file that is in the prompt whole. */
  function Whole(mask: string -> string, f: ChangedFile): Snapshot {
    Snapshot(f.path, f.status, f.additions, f.deletions, mask(f.patch), false)
  }

  /** The files with the whole budget used exactly and a last file without a patch. */
  predicate LosesTail(files: seq<ChangedFile>, chars: nat) {
    files != [] && Chars(files) == chars && files[|files| - 1].patch == ""
  }

  lemma WholeStep(mask: string -> string, files: seq<ChangedFile>, remaining: nat)
    requires files != [] && |files[0].patch| <= remaining && |files[0].patch| <= PATCH_LIMIT
    ensures var left := remaining - |files[0].patch|;
            SnapshotsFrom(mask, files, remaining)
            == [Whole(mask, files[0])] + if left == 0 then [] else SnapshotsFrom(mask, files[1..], left)
  {
    assert CutPatch(files[0].patch, remaining) == files[0].patch;
  }

  /** The snapshots are the first files, whole, and the others have no patch. */
  ghost predicate WholeUpTo(mask: string -> string, files: seq<ChangedFile>, snapshots: seq<Snapshot>) {
    && |snapshots| <= |files|
    && (forall i :: 0 <= i < |snapshots| ==> snapshots[i] == Whole(mask, files[i]))
    && (forall i :: |snapshots| <= i < |files| ==> files[i].patch == "")
  }

  lemma WholeFirst(mask: string -> string, files: seq<ChangedFile>, later: seq<Snapshot>, snapshots: seq<Snapshot>)
    requires files != [] && snapshots == [Whole(mask, files[0])] + later
    ensures WholeUpTo(mask, files[1..], later) ==> WholeUpTo(mask, files, snapshots)
  {
    assert files == [files[0]] + files[1..];
  }

  lemma CharsOpen(files: seq<ChangedFile>)
    ensures files != [] ==> Chars(files) == |files[0].patch| + Chars(files[1..])
    ensures files == [] ==> Chars(files) == 0
  {
  }

  lemma LosesLater(files: seq<ChangedFile>, chars: nat, left: nat)
    requires files != [] && chars == |files[0].patch| + left
    ensures left > 0 ==> (LosesTail(files, chars) <==> LosesTail(files[1..], left))
    ensures left == 0 < chars ==>
              (LosesTail(files, chars) <==> |files| > 1 && Chars(files[1..]) == 0 && files[|files| - 1].patch == "")
  {
    CharsOpen(files);
    CharsOpen(files[1..]);
    if |files| > 1 {
      assert files[1..][|files| - 2] == files[|files| - 1];
    }
  }

  ghost predicate Limited(files: seq<ChangedFile>) {
    forall i :: 0 <= i < |files| ==> |files[i].patch| <= PATCH_LIMIT
  }

  lemma LimitedOpens(files: seq<ChangedFile>)
    requires files != [] && Limited(files)
    ensures |files[0].patch| <= PATCH_LIMIT && Limited(files[1..])
  {
    assert forall i :: 0 <= i < |files[1..]| ==> files[1..][i] == files[i + 1];
  }

  /** Within the budget the second pass cuts no patch, and drops only files without one. */
  lemma {:induction false} SnapshotsWhole(
      mask: string -> string, files: seq<ChangedFile>, remaining: nat, snapshots: seq<Snapshot>)
    requires remaining > 0 && Chars(files) <= remaining && Limited(files)
    requires snapshots == SnapshotsFrom(mask, files, remaining)
    ensures WholeUpTo(mask, files, snapshots)
    decreases files
  {
    if files != [] {
      var left, rest := remaining - |files[0].patch|, files[1..];
      var later := if left == 0 then [] else SnapshotsFrom(mask, rest, left);
      LimitedOpens(files);
      WholeStep(mask, files, remaining);
      CharsOpen(files);
      if left > 0 {
        SnapshotsWhole(mask, rest, left, later);
      } else {
        NoneIsWhole(mask, rest);
      }
      WholeFirst(mask, files, later, snapshots);
    }
  }

  lemma NoneIsWhole(mask: string -> string, files: seq<ChangedFile>)
    requires Chars(files) == 0
    ensures WholeUpTo(mask, files, [])
  {
    NoCharsLeft(files);
  }

  /** It drops some exactly when the budget is used up before a last file without a patch. */
  lemma {:induction false} SnapshotsComplete(
      mask: string -> string, files: seq<ChangedFile>, remaining: nat, snapshots: seq<Snapshot>)
    requires remaining > 0 && Chars(files) <= remaining && Limited(files)
    requires snapshots == SnapshotsFrom(mask, files, remaining)
    ensures |snapshots| == |files| <==> !LosesTail(files, remaining)
    decreases files
  {
    if files != [] {
      var left, rest := remaining - |files[0].patch|, files[1..];
      LimitedOpens(files);
      WholeStep(mask, files, remaining);
      LosesLater(files, remaining, left);
      CharsOpen(files);
      if left > 0 {
        SnapshotsComplete(mask, rest, left, SnapshotsFrom(mask, rest, left));
      } else {
        LastIsEmpty(files);
      }
    }
  }

  lemma LastIsEmpty(files: seq<ChangedFile>)
    requires files != [] && Chars(files[1..]) == 0
    ensures |files| > 1 ==> files[|files| - 1].patch == ""
  {
    NoCharsLeft(files[1..]);
    if |files| > 1 {
      assert files[1..][|files| - 2] == files[|files| - 1];
    }
  }

  lemma {:induction false} NoCharsLeft(files: seq<ChangedFile>)
    requires Chars(files) == 0
    ensures forall i :: 0 <= i < |files| ==> files[i].patch == ""
  {
    if files != [] {
      NoCharsLeft(files[1..]);
    }
  }

  lemma {:induction false} CharsOfInsert(
      leq: (ChangedFile, ChangedFile) -> bool, f: ChangedFile, files: seq<ChangedFile>)
    ensures Chars(Insert(leq, f, files)) == |f.patch| + Chars(files)
  {
    if files != [] && !leq(f, files[0]) {
      CharsOfInsert(leq, f, files[1..]);
    } else {
      assert ([f] + files)[1..] == files;
    }
  }

  lemma {:induction false} CharsOfSorted(leq: (ChangedFile, ChangedFile) -> bool, files: seq<ChangedFile>)
    ensures Chars(StableSort(leq, files)) == Chars(files)
  {
    if files != [] {
      CharsOfSorted(leq, files[1..]);
      CharsOfInsert(leq, files[0], StableSort(leq, files[1..]));
    }
  }

  lemma BatchPatches(t: TextOps, files: seq<ChangedFile>, route: string, batch: seq<ChangedFile>)
    requires batch in Batches(t, files, route)
    ensures forall f :: f in batch ==> |f.patch| <= PATCH_LIMIT
  {
    BatchesFit(t, files, route);
    FlatHolds(Batches(t, files, route), batch);
    SelectionIsSmall(Take(StableSort(ReviewOrder(t), files), PromptBudget(route).files), PromptBudget(route).chars);
  }

  lemma {:induction false} FlatHolds(groups: seq<seq<ChangedFile>>, group: seq<ChangedFile>)
    requires group in groups
    ensures forall f :: f in group ==> f in Flat(groups)
  {
    if group != groups[0] {
      FlatHolds(groups[1..], group);
    }
  }

  /** What the second pass expects of a batch. */
  ghost predicate FitsPrompt(batch: seq<ChangedFile>, budget: Budget) {
    && |batch| <= budget.files && Chars(batch) <= budget.chars && 0 < budget.chars
    && forall f :: f in batch ==> |f.patch| <= PATCH_LIMIT
  }

  /** No patch is cut a second time, and every file is there if and only if the batch does not use
      its whole character budget with a file without a patch last in review order. */
  ghost predicate LosesTailOnly(t: TextOps, mask: string -> string, batch: seq<ChangedFile>, budget: Budget,
                                snapshots: seq<Snapshot>) {
    var order := StableSort(ReviewOrder(t), batch);
    && |snapshots| <= |order| == |batch|
    && (forall i :: 0 <= i < |snapshots| ==> snapshots[i] == Whole(mask, order[i]))
    && (|snapshots| == |batch| <==> !LosesTail(order, budget.chars))
    && (|snapshots| < |batch| ==> Chars(batch) == budget.chars && exists f :: f in batch && f.patch == "")
  }

  lemma FittingBatch(t: TextOps, mask: string -> string, batch: seq<ChangedFile>, budget: Budget)
    requires FitsPrompt(batch, budget)
    ensures LosesTailOnly(t, mask, batch, budget, BatchSnapshots(t, mask, batch, budget))
  {
    var order := StableSort(ReviewOrder(t), batch);
    SortPermutes(ReviewOrder(t), batch);
    SameElements(order, batch);
    CharsOfSorted(ReviewOrder(t), batch);
    SnapshotsWhole(mask, order, budget.chars, SnapshotsFrom(mask, order, budget.chars));
    SnapshotsComplete(mask, order, budget.chars, SnapshotsFrom(mask, order, budget.chars));
    if LosesTail(order, budget.chars) {
      assert order[|order| - 1] in batch;
    }
  }

  /** The place of a batch among those of the request. */
  datatype BatchPlace = BatchPlace(originalTotalFiles: nat, selectedTotalFiles: nat, batchIndex: nat, batchCount: nat)

  /** What a prompt says of its own scope. */
  datatype PromptScope = PromptScope(
    totalFiles: nat, includedFiles: nat, filesTruncated: bool, patchCharBudget: nat, place: Option<BatchPlace>)

  /** The second pass over a batch, and what it reports of it: for a batch that fits, that a file is
      missing exactly when the tail was lost. */
  method ChangedFileSnapshot(
      t: TextOps, mask: string -> string, batch: seq<ChangedFile>, budget: Budget, place: Option<BatchPlace>)
    returns (snapshots: seq<Snapshot>, scope: PromptScope)
    ensures snapshots == BatchSnapshots(t, mask, batch, budget)
    ensures scope == PromptScope(|batch|, |snapshots|, |snapshots| < |batch|, budget.chars, place)
    ensures FitsPrompt(batch, budget) ==>
              && LosesTailOnly(t, mask, batch, budget, snapshots)
              && (scope.filesTruncated <==> LosesTail(StableSort(ReviewOrder(t), batch), budget.chars))
  {
    snapshots := SnapshotFiles(mask, Take(StableSort(ReviewOrder(t), batch), budget.files), budget.chars);
    scope := PromptScope(|batch|, |snapshots|, |snapshots| < |batch|, budget.chars, place);
    if FitsPrompt(batch, budget) {
      FittingBatch(t, mask, batch, budget);
    }
  }

  /** Every batch of every review fits its prompt, so the second pass loses nothing but such a tail. */
  lemma SecondPassLossless(t: TextOps, mask: string -> string, files: seq<ChangedFile>, route: string,
                           batch: seq<ChangedFile>)
    requires batch in Batches(t, files, route)
    ensures FitsPrompt(batch, BatchBudget(route))
    ensures LosesTailOnly(t, mask, batch, BatchBudget(route), BatchSnapshots(t, mask, batch, BatchBudget(route)))
  {
    BatchesFit(t, files, route);
    BatchPatches(t, files, route, batch);
    FittingBatch(t, mask, batch, BatchBudget(route));
  }

  // ---------------------------------------------------------------- the boundary case is reached

  function Repeated(n: nat): string {
    seq(n, i => 'x')
  }

  function PlainFile(lines: nat, chars: nat): ChangedFile {
    ChangedFile("x", "modified", lines, 0, Repeated(chars))
  }

  lemma NothingStartsWithX(text: string, markers: seq<string>)
    requires forall i :: 0 <= i < |text| ==> text[i] == 'x'
    requires forall i :: 0 <= i < |markers| ==> markers[i] != "" && markers[i][0] != 'x'
    ensures !ContainsAny(text, markers)
  {
  }

  lemma PlainPriority(lines: nat, chars: nat)
    ensures PriorityOf(ASCII, PlainFile(lines, chars)) == Priority(false, false, lines)
  {
    NothingStartsWithX(AsciiLower("x"), HIGH_RISK_PATH_KEYWORDS);
    NothingStartsWithX(AsciiLower(Repeated(chars)), REVIEW_SIGNAL_MARKERS);
  }

  lemma PlainOrder(linesA: nat, charsA: nat, linesB: nat, charsB: nat)
    requires linesA >= linesB
    ensures ReviewOrder(ASCII)(PlainFile(linesA, charsA), PlainFile(linesB, charsB))
  {
    PlainPriority(linesA, charsA);
    PlainPriority(linesB, charsB);
  }

  lemma InReviewOrder(files: seq<ChangedFile>)
    requires files == [PlainFile(3, 4000), PlainFile(2, 2000), PlainFile(1, 0)]
    ensures StableSort(ReviewOrder(ASCII), files) == files
  {
    PlainOrder(3, 4000, 2, 2000);
    PlainOrder(3, 4000, 1, 0);
    PlainOrder(2, 2000, 1, 0);
    ThreeSorted(ReviewOrder(ASCII), files);
    SortedIsFixed(ReviewOrder(ASCII), files);
  }

  lemma ThreeSorted(leq: (ChangedFile, ChangedFile) -> bool, files: seq<ChangedFile>)
    requires |files| == 3 && leq(files[0], files[1]) && leq(files[0], files[2]) && leq(files[1], files[2])
    ensures Sorted(leq, files)
  {
  }

  /** Files of 4000, 2000 and 0 characters make one batch of exactly 6000, and the third file of the
      batch is missing from its prompt. */
  lemma BoundaryDropsFile(mask: string -> string)
    ensures var files := [PlainFile(3, 4000), PlainFile(2, 2000), PlainFile(1, 0)];
            Batches(ASCII, files, POLICY_CONTEXT_REVIEW) == [files]
            && |BatchSnapshots(ASCII, mask, files, BatchBudget(POLICY_CONTEXT_REVIEW))| == 2
  {
    var files := [PlainFile(3, 4000), PlainFile(2, 2000), PlainFile(1, 0)];
    InReviewOrder(files);
    assert files[1..] == [PlainFile(2, 2000), PlainFile(1, 0)] && files[1..][1..] == [PlainFile(1, 0)];
    BoundarySelection(files);
    BoundaryGroups(files);
    BoundarySnapshots(mask, files);
  }

  lemma BoundarySelection(files: seq<ChangedFile>)
    requires files == [PlainFile(3, 4000), PlainFile(2, 2000), PlainFile(1, 0)]
    ensures SelectFrom(files, 30000) == files
  {
    var last := [PlainFile(1, 0)];
    var lastTwo := [PlainFile(2, 2000), PlainFile(1, 0)];
    assert files[1..] == lastTwo && lastTwo[1..] == last && last[1..] == [];
    assert SelectFrom(last, 24000) == last;
    assert SelectFrom(lastTwo, 26000) == lastTwo;
  }

  lemma BoundaryGroups(files: seq<ChangedFile>)
    requires files == [PlainFile(3, 4000), PlainFile(2, 2000), PlainFile(1, 0)]
    ensures GroupFrom(files, [], Budget(4, 6000)) == [files]
  {
    var a, b, e := PlainFile(3, 4000), PlainFile(2, 2000), PlainFile(1, 0);
    var budget := Budget(4, 6000);
    assert files[1..] == [b, e] && [b, e][1..] == [e] && [e][1..] == [];
    CharsConcat([a], [b]);
    assert Chars([a]) == 4000 && Chars([b]) == 2000 && [a] + [b] == [a, b] && [a, b] + [e] == files && [] + [a] == [a];
    assert GroupFrom([], files, budget) == [files];
    assert GroupFrom([e], [a, b], budget) == [files];
    assert GroupFrom([b, e], [a], budget) == [files];
  }

  lemma BoundarySnapshots(mask: string -> string, files: seq<ChangedFile>)
    requires files == [PlainFile(3, 4000), PlainFile(2, 2000), PlainFile(1, 0)]
    ensures |SnapshotsFrom(mask, files, 6000)| == 2
  {
  }
}
