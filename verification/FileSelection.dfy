/** Which files of a request the prompts hold, and how much of them: the most urgent first. */
module FileSelection {
  import opened Text
  import opened Schemas
  import opened Sorting
  import opened PromptBuilder
  import PolicyHarness
  import Rag

  // ---------------------------------------------------------------- urgency

  /** The path has a keyword of high risk, in any case. */
  ghost predicate Risky(t: TextOps, f: ChangedFile) {
    exists word :: word in HIGH_RISK_PATH_KEYWORDS && Contains(t.lower(f.path), word)
  }

  /** The patch has a word that calls for review, in any case. */
  ghost predicate Signals(t: TextOps, f: ChangedFile) {
    exists word :: word in REVIEW_SIGNAL_MARKERS && Contains(t.lower(f.patch), word)
  }

  /** b is not more urgent than a: risk counts first, then signals, then the number of changed lines. */
  ghost predicate NoMoreUrgent(t: TextOps, a: ChangedFile, b: ChangedFile) {
    && (Risky(t, b) ==> Risky(t, a))
    && ((Risky(t, a) <==> Risky(t, b)) ==>
          && (Signals(t, b) ==> Signals(t, a))
          && ((Signals(t, a) <==> Signals(t, b)) ==> a.additions + a.deletions >= b.additions + b.deletions))
  }

  lemma AnyMeans(text: string, markers: seq<string>)
    ensures ContainsAny(text, markers) <==> exists word :: word in markers && Contains(text, word)
  {
    if word :| word in markers && Contains(text, word) {
      var i :| 0 <= i < |markers| && markers[i] == word;
    }
  }

  /** The review order is that of urgency, and ties it only where urgency does. */
  lemma OrderIsUrgency(t: TextOps, a: ChangedFile, b: ChangedFile)
    ensures ReviewOrder(t)(a, b) <==> NoMoreUrgent(t, a, b)
  {
    AnyMeans(t.lower(a.path), HIGH_RISK_PATH_KEYWORDS);
    AnyMeans(t.lower(b.path), HIGH_RISK_PATH_KEYWORDS);
    AnyMeans(t.lower(a.patch), REVIEW_SIGNAL_MARKERS);
    AnyMeans(t.lower(b.patch), REVIEW_SIGNAL_MARKERS);
  }

  /** The candidates run from urgent to less urgent. */
  lemma CandidatesByUrgency(t: TextOps, files: seq<ChangedFile>, route: string, i: nat, j: nat)
    requires i < j < |Candidates(t, files, route)|
    ensures NoMoreUrgent(t, Candidates(t, files, route)[i], Candidates(t, files, route)[j])
  {
    ReviewOrderIsPreorder(t);
    SortSorted(ReviewOrder(t), files);
    OrderIsUrgency(t, Candidates(t, files, route)[i], Candidates(t, files, route)[j]);
  }

  /** No file that the limit on files leaves out is more urgent than a candidate. */
  lemma LeftOutIsNotUrgent(t: TextOps, files: seq<ChangedFile>, route: string, kept: ChangedFile, cut: ChangedFile)
    requires kept in Candidates(t, files, route)
    requires cut in files && cut !in Candidates(t, files, route)
    ensures NoMoreUrgent(t, kept, cut)
  {
    ReviewOrderIsPreorder(t);
    KeptBeforeCut(ReviewOrder(t), files, PromptBudget(route).files, kept, cut);
    OrderIsUrgency(t, kept, cut);
  }

  // ---------------------------------------------------------------- how much is shown

  function Least(m: nat, n: nat): nat {
    if m < n then m else n
  }

  /** The characters that candidates take of a budget that is large enough. */
  function Wanted(candidates: seq<ChangedFile>): nat {
    if candidates == [] then 0 else Least(4000, |candidates[0].patch|) + Wanted(candidates[1..])
  }

  /** What the candidates before the k-th leave of the budget. */
  function LeftFor(candidates: seq<ChangedFile>, chars: nat, k: nat): nat
    requires k <= |candidates|
  {
    chars - Least(chars, Wanted(candidates[..k]))
  }

  /** The characters of the k-th candidate's patch that are shown. */
  function ShownChars(candidates: seq<ChangedFile>, chars: nat, k: nat): nat
    requires k < |candidates|
  {
    Least(|candidates[k].patch|, Least(4000, LeftFor(candidates, chars, k)))
  }

  lemma LeftForLater(candidates: seq<ChangedFile>, chars: nat, k: nat)
    requires candidates != [] && 0 < k <= |candidates|
    ensures LeftFor(candidates, chars, k) == LeftFor(candidates[1..], LeftAfter(candidates[0], chars), k - 1)
  {
    assert candidates[..k][1..] == candidates[1..][..k - 1];
  }

  /** A candidate is selected if and only if it has no patch or the ones before it have left something. */
  predicate TakenAt(candidates: seq<ChangedFile>, chars: nat, k: nat)
    requires k < |candidates|
  {
    candidates[k].patch == "" || LeftFor(candidates, chars, k) > 0
  }

  /** As much of the k-th candidate as is shown. */
  function ShownOf(candidates: seq<ChangedFile>, chars: nat, k: nat): ChangedFile
    requires k < |candidates|
  {
    candidates[k].(patch := candidates[k].patch[..ShownChars(candidates, chars, k)])
  }

  /** The files are those at the given places, as far as they are shown. */
  ghost predicate ShownAt(selected: seq<ChangedFile>, candidates: seq<ChangedFile>, chars: nat, places: seq<nat>) {
    && |places| == |selected| && Increasing(places)
    && forall i :: 0 <= i < |places| ==>
         places[i] < |candidates| && selected[i] == ShownOf(candidates, chars, places[i])
  }

  /** The places are those of the candidates that are selected. */
  ghost predicate PlacesOfTaken(candidates: seq<ChangedFile>, chars: nat, places: seq<nat>) {
    forall k :: 0 <= k < |candidates| ==> (k in places <==> TakenAt(candidates, chars, k))
  }

  lemma ShiftedIn(places: seq<nat>, k: nat)
    ensures k in Shifted(places) <==> k > 0 && k - 1 in places
  {
    if k > 0 && k - 1 in places {
      ShiftedHas(places, k - 1);
    }
  }

  lemma TakenLater(candidates: seq<ChangedFile>, chars: nat, left: nat, k: nat)
    requires 0 < k < |candidates| && left == LeftAfter(candidates[0], chars)
    ensures TakenAt(candidates, chars, k) <==> TakenAt(candidates[1..], left, k - 1)
    ensures ShownOf(candidates, chars, k) == ShownOf(candidates[1..], left, k - 1)
  {
    LeftForLater(candidates, chars, k);
  }

  lemma ShownLater(selected: seq<ChangedFile>, candidates: seq<ChangedFile>, chars: nat, left: nat, places: seq<nat>)
    requires candidates != [] && left == LeftAfter(candidates[0], chars)
    ensures ShownAt(selected, candidates[1..], left, places) ==> ShownAt(selected, candidates, chars, Shifted(places))
  {
    if ShownAt(selected, candidates[1..], left, places) {
      forall i | 0 <= i < |places|
        ensures selected[i] == ShownOf(candidates, chars, places[i] + 1)
      {
        TakenLater(candidates, chars, left, places[i] + 1);
      }
    }
  }

  lemma ShownFirst(
      f: ChangedFile, selected: seq<ChangedFile>, candidates: seq<ChangedFile>, chars: nat, places: seq<nat>)
    requires candidates != [] && f == ShownOf(candidates, chars, 0)
    ensures ShownAt(selected, candidates, chars, Shifted(places))
        ==> ShownAt([f] + selected, candidates, chars, [0] + Shifted(places))
  {
  }

  lemma PlacesLater(candidates: seq<ChangedFile>, chars: nat, left: nat, later: seq<nat>, places: seq<nat>)
    requires candidates != [] && left == LeftAfter(candidates[0], chars)
    requires places == if TakenAt(candidates, chars, 0) then [0] + Shifted(later) else Shifted(later)
    ensures PlacesOfTaken(candidates[1..], left, later) ==> PlacesOfTaken(candidates, chars, places)
  {
    if PlacesOfTaken(candidates[1..], left, later) {
      forall k | 0 <= k < |candidates|
        ensures k in places <==> TakenAt(candidates, chars, k)
      {
        ShiftedIn(later, k);
        if k > 0 {
          TakenLater(candidates, chars, left, k);
        }
      }
    }
  }

  lemma FirstShown(candidates: seq<ChangedFile>, chars: nat, rest: seq<ChangedFile>)
    requires candidates != [] && rest == SelectFrom(candidates[1..], LeftAfter(candidates[0], chars))
    ensures SelectFrom(candidates, chars)
         == if TakenAt(candidates, chars, 0) then [ShownOf(candidates, chars, 0)] + rest else rest
  {
    assert candidates[..0] == [];
    var f := candidates[0];
    assert f.(patch := f.patch) == f && f.patch[..|f.patch|] == f.patch;
  }

  /** The files before have the first claim on the characters: exactly what is selected, and how much. */
  lemma {:induction false} SelectionExactly(candidates: seq<ChangedFile>, chars: nat) returns (places: seq<nat>)
    ensures ShownAt(SelectFrom(candidates, chars), candidates, chars, places)
    ensures PlacesOfTaken(candidates, chars, places)
  {
    if candidates == [] {
      places := [];
    } else {
      var left := LeftAfter(candidates[0], chars);
      var rest := SelectFrom(candidates[1..], left);
      var later := SelectionExactly(candidates[1..], left);
      FirstShown(candidates, chars, rest);
      ShownLater(rest, candidates, chars, left, later);
      places := if TakenAt(candidates, chars, 0) then [0] + Shifted(later) else Shifted(later);
      if TakenAt(candidates, chars, 0) {
        ShownFirst(ShownOf(candidates, chars, 0), rest, candidates, chars, later);
      }
      PlacesLater(candidates, chars, left, later, places);
    }
  }

  // ---------------------------------------------------------------- batches

  /** How many files and characters a request and a batch may have, by route. */
  lemma BudgetsAre(route: string)
    ensures PromptBudget("simple_failure_review") == Budget(8, 12000)
    ensures PromptBudget("policy_context_review") == Budget(20, 30000)
    ensures PromptBudget("deep_quality_review") == Budget(30, 50000)
    ensures BatchBudget("simple_failure_review") == BatchBudget("policy_context_review") == Budget(4, 6000)
    ensures BatchBudget("deep_quality_review") == Budget(4, 7000)
    ensures route !in {"simple_failure_review", "policy_context_review", "deep_quality_review"} ==>
              PromptBudget(route) == Budget(20, 30000) && BatchBudget(route) == Budget(4, 6000)
  {
  }

  function TotalChars(files: seq<ChangedFile>): nat {
    if files == [] then 0 else TotalChars(files[..|files| - 1]) + |files[|files| - 1].patch|
  }

  lemma {:induction false} CharsAreTotal(files: seq<ChangedFile>)
    ensures Chars(files) == TotalChars(files)
  {
    if files != [] {
      var before, last := files[..|files| - 1], files[|files| - 1];
      CharsAreTotal(before);
      CharsConcat(before, [last]);
      assert before + [last] == files;
      assert Chars([last]) == |last.patch|;
    }
  }

  /** A group is closed only where the first file of the next one had no place in it. */
  ghost predicate ClosedWhenFull(groups: seq<seq<ChangedFile>>, budget: Budget) {
    forall i, j :: 0 <= i < j < |groups| && j == i + 1 ==> NoPlaceFor(groups[i], groups[j], budget)
  }

  /** The group is full, or too full for the first file of the next. */
  predicate NoPlaceFor(group: seq<ChangedFile>, next: seq<ChangedFile>, budget: Budget) {
    && group != [] && next != []
    && (|group| >= budget.files || TotalChars(group) + |next[0].patch| > budget.chars)
  }

  lemma FirstGroup(files: seq<ChangedFile>, current: seq<ChangedFile>, budget: Budget)
    requires current != []
    ensures GroupFrom(files, current, budget) != [] && current <= GroupFrom(files, current, budget)[0]
    decreases files
  {
    if files != [] && !Closes(current, files[0], budget) {
      FirstGroup(files[1..], current + [files[0]], budget);
    }
  }

  lemma OneMoreGroup(group: seq<ChangedFile>, groups: seq<seq<ChangedFile>>, budget: Budget)
    requires groups != [] && NoPlaceFor(group, groups[0], budget)
    ensures ClosedWhenFull(groups, budget) ==> ClosedWhenFull([group] + groups, budget)
  {
    var all := [group] + groups;
    if ClosedWhenFull(groups, budget) {
      forall i, j | 0 <= i < j < |all| && j == i + 1
        ensures NoPlaceFor(all[i], all[j], budget)
      {
        if i > 0 {
          assert all[i] == groups[i - 1] && all[j] == groups[j - 1];
        }
      }
    }
  }

  /** Packing is greedy: no group is closed too early. */
  lemma {:induction false} GroupsCloseWhenFull(files: seq<ChangedFile>, current: seq<ChangedFile>, budget: Budget)
    ensures ClosedWhenFull(GroupFrom(files, current, budget), budget)
    decreases files
  {
    if files != [] {
      if Closes(current, files[0], budget) {
        var later := GroupFrom(files[1..], [files[0]], budget);
        GroupsCloseWhenFull(files[1..], [files[0]], budget);
        FirstGroup(files[1..], [files[0]], budget);
        CharsAreTotal(current);
        assert later[0][0] == [files[0]][0];
        OneMoreGroup(current, later, budget);
      } else {
        GroupsCloseWhenFull(files[1..], current + [files[0]], budget);
      }
    }
  }

  // ---------------------------------------------------------------- what a batch is given

  /** The measurements of some files are picked one by one, in the order they came in. */
  lemma {:induction false} MetricsOneByOne(metrics: seq<ComplexityMetric>, m: ComplexityMetric, paths: set<string>)
    ensures MetricsOf(metrics + [m], paths) == MetricsOf(metrics, paths) + (if m.filePath in paths then [m] else [])
  {
    if metrics == [] {
      assert metrics + [m] == [m];
    } else {
      var first, later := metrics[0], metrics[1..];
      MetricsOneByOne(later, m, paths);
      assert (metrics + [m])[1..] == later + [m];
      Regroup(if first.filePath in paths then [first] else [], MetricsOf(later, paths),
              if m.filePath in paths then [m] else []);
    }
  }

  /** A batch is for the files of its group. Its measurements are those of these files, its harness is chosen
      by these files and measurements under the route of the request, and its policies by these files and by
      the policy types of that harness; without retrieval it has the policies of the request. */
  lemma BatchIsForItsFiles(
      t: TextOps, guidance: Option<Guidance>, input: PromptInput, groups: seq<seq<ChangedFile>>, i: nat)
    requires i < |groups|
    ensures var b := BuiltFrom(t, guidance, input, groups)[i];
            && b.files == groups[i]
            && (forall m :: m in b.metrics <==> m in input.metrics && exists f :: f in b.files && f.path == m.filePath)
            && (guidance.None? ==> b.harness == None)
            && (guidance.None? || !input.useRag ==> b.policies == input.policies)
            && (guidance.Some? ==> ChosenFor(t, guidance.value, input, b))
  {
    var paths := Paths(groups[i]);
    assert forall m: ComplexityMetric :: m.filePath in paths <==> exists f :: f in groups[i] && f.path == m.filePath;
  }

  predicate ChosenFor(t: TextOps, guidance: Guidance, input: PromptInput, b: PromptBatch) {
    && b.harness == Some(PolicyHarness.Selection(t, guidance.manifest, input.route, b.files, b.metrics))
    && (input.useRag ==>
          var query := Rag.Query(guidance.words(b.files), set p | p in b.harness.value.policyTypes);
          b.policies == Rag.Ranked(guidance.sc, query, input.policies, guidance.maxPolicies))
  }
}
