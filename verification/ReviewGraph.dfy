/** review_graph.py and orchestrator.py: the stages of one review, the state they pass on, the events
    they publish, and what a run looks like to those who follow it. */
module ReviewGraph {
  import opened Text
  import opened GraphExecutor
  import Events

  datatype Stage =
    | Start | End | CreateReview | ExtractFeatures | SelectRoute | AnalyzeComplexity | SelectHarness
    | RetrievePolicies | SkipPolicyRetrieval | BuildPrompt | CallLlm | ValidateFindings | AssembleResult
    | PersistResult | PublishComment | CompleteReview

  /** The keys of the workflow state. */
  datatype Key =
    | ReviewRunId | Request | PolicyAvailable | Features | Route | ComplexityMetrics | Policies | ReviewHarness
    | PromptBatches | Summary | Findings | FindingValidation | Usage | Result | PublishResult

  datatype Kind =
    | ReviewQueued | ReviewCreated | FeaturesExtracted | RouteSelected | ComplexityAnalyzed | ReviewHarnessSelected
    | PolicyRetrievalStarted | PolicyRetrievalCompleted | PolicyRetrievalSkipped | PromptBuilt | LlmCallStarted
    | LlmBatchStarted | LlmBatchCompleted | LlmCallCompleted | FindingsValidated | ReviewPersisted | CommentPublished
    | ReviewCompleted | ReviewFailed

  function EventType(kind: Kind): string {
    match kind
    case ReviewQueued => "review_queued"
    case ReviewCreated => "review_created"
    case FeaturesExtracted => "features_extracted"
    case RouteSelected => "route_selected"
    case ComplexityAnalyzed => "complexity_analyzed"
    case ReviewHarnessSelected => "review_harness_selected"
    case PolicyRetrievalStarted => "policy_retrieval_started"
    case PolicyRetrievalCompleted => "policy_retrieval_completed"
    case PolicyRetrievalSkipped => "policy_retrieval_skipped"
    case PromptBuilt => "prompt_built"
    case LlmCallStarted => "llm_call_started"
    case LlmBatchStarted => "llm_batch_started"
    case LlmBatchCompleted => "llm_batch_completed"
    case LlmCallCompleted => "llm_call_completed"
    case FindingsValidated => "findings_validated"
    case ReviewPersisted => "review_persisted"
    case CommentPublished => "comment_published"
    case ReviewCompleted => Events.REVIEW_COMPLETED
    case ReviewFailed => Events.REVIEW_FAILED
  }

  predicate Terminal(kind: Kind) {
    kind == ReviewCompleted || kind == ReviewFailed
  }

  /** The two kinds that end a stream are the two that events.py knows as terminal. */
  lemma TerminalKinds(kind: Kind)
    ensures Events.IsTerminal(EventType(kind)) <==> Terminal(kind)
  {
  }

  // ---------------------------------------------------------------- what the stages do

  /** A step of a stage: it reads a key of the state, calls a service that may raise, or publishes. */
  datatype Action = Read(key: Key) | Call | Emit(kind: Kind)

  /** What a run depends on: the route, the number of prompt batches, and which calls raise. */
  datatype Plan = Plan(useRag: bool, batches: nat, fails: nat -> bool)

  /** The keys written so far, the events published, the calls made. */
  datatype World = World(keys: set<Key>, events: seq<Kind>, calls: nat)

  function Times(action: Action, n: nat): seq<Action> {
    if n == 0 then [] else [action] + Times(action, n - 1)
  }

  function Actions(stage: Stage, batches: nat): seq<Action> {
    match stage
    case Start => []
    case End => []
    case CreateReview => [Read(Request), Emit(ReviewCreated)]
    case ExtractFeatures => [Read(Request), Call, Emit(FeaturesExtracted)]
    case SelectRoute => [Read(Features), Read(Request), Call, Emit(RouteSelected)]
    case AnalyzeComplexity => [Read(Request), Call, Emit(ComplexityAnalyzed)]
    case SelectHarness => [Read(Request), Read(Route), Call, Emit(ReviewHarnessSelected)]
    case RetrievePolicies =>
      [Read(ReviewHarness), Emit(PolicyRetrievalStarted), Read(Request), Call, Call, Emit(PolicyRetrievalCompleted)]
    case SkipPolicyRetrieval => [Emit(PolicyRetrievalSkipped)]
    case BuildPrompt => [Read(Request), Read(Route), Read(Policies), Call, Read(ReviewHarness), Emit(PromptBuilt)]
    case CallLlm =>
      [Read(Route), Read(PromptBatches), Emit(LlmCallStarted)] + (Times(Emit(LlmBatchStarted), batches)
      + ([Read(ReviewRunId)]
         + (Times(Call, batches) + (Times(Emit(LlmBatchCompleted), batches) + [Emit(LlmCallCompleted)]))))
    case ValidateFindings =>
      [Read(Request), Read(Route), Read(Policies), Read(Findings), Read(ReviewHarness), Call, Emit(FindingsValidated)]
    case AssembleResult =>
      [Read(Request), Read(ReviewRunId), Read(Summary), Read(Findings), Read(Route), Read(Features), Read(Usage),
       Read(Policies), Read(ReviewHarness), Read(FindingValidation)]
    case PersistResult => [Read(Result), Call, Emit(ReviewPersisted)]
    case PublishComment => [Read(Request), Read(Result), Call, Emit(CommentPublished)]
    case CompleteReview => [Read(Result), Emit(ReviewCompleted)]
  }

  /** The keys of the update that a stage returns. */
  function Writes(stage: Stage): set<Key> {
    match stage
    case ExtractFeatures => {PolicyAvailable, Features}
    case SelectRoute => {Route}
    case AnalyzeComplexity => {Request, ComplexityMetrics}
    case SelectHarness => {ReviewHarness}
    case RetrievePolicies => {Policies}
    case SkipPolicyRetrieval => {Policies}
    case BuildPrompt => {PromptBatches, Policies, ReviewHarness}
    case CallLlm => {Summary, Findings, Usage}
    case ValidateFindings => {Findings, FindingValidation}
    case AssembleResult => {Result}
    case PublishComment => {PublishResult}
    case _ => {}
  }

  /** Reading a key that was never written raises, as does a failing call. */
  function RunActions(actions: seq<Action>, fails: nat -> bool, w: World): Outcome<World>
    decreases actions
  {
    if actions == [] then Done(w)
    else
      match actions[0]
      case Read(key) => if key in w.keys then RunActions(actions[1..], fails, w) else Raised(w)
      case Call =>
        var called := w.(calls := w.calls + 1);
        if fails(w.calls) then Raised(called) else RunActions(actions[1..], fails, called)
      case Emit(kind) => RunActions(actions[1..], fails, w.(events := w.events + [kind]))
  }

  function RunStage(stage: Stage, plan: Plan, w: World): Outcome<World> {
    match RunActions(Actions(stage, plan.batches), plan.fails, w)
    case Done(t) => Done(t.(keys := t.keys + Writes(stage)))
    case Raised(t) => Raised(t)
  }

  /** _policy_retrieval_path */
  function RetrievalPath(plan: Plan, w: World): Option<string> {
    if Route !in w.keys then None else Some(if plan.useRag then "retrieve" else "skip")
  }

  // ---------------------------------------------------------------- the graph

  function Node(stage: Stage, plan: Plan): World -> Outcome<World> {
    (w: World) => RunStage(stage, plan, w)
  }

  const RETRIEVAL_TARGETS: map<string, Stage> := map["retrieve" := RetrievePolicies, "skip" := SkipPolicyRetrieval]

  /** The one edge out of every stage that has no branch. */
  function Edge(stage: Stage): Stage {
    match stage
    case Start => CreateReview
    case End => End
    case CreateReview => ExtractFeatures
    case ExtractFeatures => SelectRoute
    case SelectRoute => AnalyzeComplexity
    case AnalyzeComplexity => SelectHarness
    case SelectHarness => End
    case RetrievePolicies => BuildPrompt
    case SkipPolicyRetrieval => BuildPrompt
    case BuildPrompt => CallLlm
    case CallLlm => ValidateFindings
    case ValidateFindings => AssembleResult
    case AssembleResult => PersistResult
    case PersistResult => PublishComment
    case PublishComment => CompleteReview
    case CompleteReview => End
  }

  function Branching(plan: Plan): Branch<Stage, World> {
    Branch((w: World) => RetrievalPath(plan, w), RETRIEVAL_TARGETS)
  }

  /** The order in which the stages are declared. */
  function Order(stage: Stage): (k: nat)
    ensures k <= 15
  {
    match stage
    case Start => 0
    case CreateReview => 1
    case ExtractFeatures => 2
    case SelectRoute => 3
    case AnalyzeComplexity => 4
    case SelectHarness => 5
    case RetrievePolicies => 6
    case SkipPolicyRetrieval => 7
    case BuildPrompt => 8
    case CallLlm => 9
    case ValidateFindings => 10
    case AssembleResult => 11
    case PersistResult => 12
    case PublishComment => 13
    case CompleteReview => 14
    case End => 15
  }

  /** The nodes of the stages before place k. */
  function NodesUpTo(k: nat, plan: Plan): map<Stage, World -> Outcome<World>> {
    map s: Stage | 0 < Order(s) < k :: Node(s, plan)
  }

  /** The plain edges of the stages before place k. */
  function EdgesUpTo(k: nat): map<Stage, seq<Stage>> {
    map s: Stage | Order(s) < k && s != SelectHarness :: [Edge(s)]
  }

  function ReviewGraph(plan: Plan): Graph<Stage, World> {
    Graph(Start, End, NodesUpTo(15, plan), EdgesUpTo(15), map[SelectHarness := Branching(plan)])
  }

  lemma OrderInjective(a: Stage, b: Stage)
    ensures Order(a) == Order(b) ==> a == b
  {
  }

  method AddStage(graph: StateGraph<Stage, World>, stage: Stage, plan: Plan)
    requires stage != Start && graph.nodes == NodesUpTo(Order(stage), plan)
    modifies graph
    ensures graph.nodes == NodesUpTo(Order(stage) + 1, plan)
    ensures graph.edges == old(graph.edges) && graph.branches == old(graph.branches)
  {
    forall s: Stage
      ensures Order(s) == Order(stage) ==> s == stage
    {
      OrderInjective(s, stage);
    }
    graph.AddNode(stage, Node(stage, plan));
  }

  method Connect(graph: StateGraph<Stage, World>, source: Stage, target: Stage)
    requires source != SelectHarness && target == Edge(source) && graph.edges == EdgesUpTo(Order(source))
    modifies graph
    ensures graph.edges == EdgesUpTo(Order(source) + 1)
    ensures graph.nodes == old(graph.nodes) && graph.branches == old(graph.branches)
  {
    forall s: Stage
      ensures Order(s) == Order(source) ==> s == source
    {
      OrderInjective(s, source);
    }
    graph.AddEdge(source, target);
    assert [] + [target] == [target];
  }

  lemma NoPlainEdgeAtBranch()
    ensures EdgesUpTo(5) == EdgesUpTo(6)
  {
  }

  /** _build_graph */
  method BuildGraph(plan: Plan) returns (g: Graph<Stage, World>)
    ensures g == ReviewGraph(plan)
  {
    var graph := new StateGraph<Stage, World>(Start, End);
    AddStages(graph, plan);
    AddStageEdges(graph);
    var branch := Branching(plan);
    graph.AddConditionalEdges(SelectHarness, branch.path, branch.targets);
    g := graph.Compile();
  }

  method AddStages(graph: StateGraph<Stage, World>, plan: Plan)
    requires graph.nodes == map[]
    modifies graph
    ensures graph.nodes == NodesUpTo(15, plan)
    ensures graph.edges == old(graph.edges) && graph.branches == old(graph.branches)
  {
    AddStage(graph, CreateReview, plan);
    AddStage(graph, ExtractFeatures, plan);
    AddStage(graph, SelectRoute, plan);
    AddStage(graph, AnalyzeComplexity, plan);
    AddStage(graph, SelectHarness, plan);
    AddLaterStages(graph, plan);
  }

  method AddLaterStages(graph: StateGraph<Stage, World>, plan: Plan)
    requires graph.nodes == NodesUpTo(6, plan)
    modifies graph
    ensures graph.nodes == NodesUpTo(15, plan)
    ensures graph.edges == old(graph.edges) && graph.branches == old(graph.branches)
  {
    AddPromptStages(graph, plan);
    AddModelStages(graph, plan);
    AddFinalStages(graph, plan);
  }

  method AddPromptStages(graph: StateGraph<Stage, World>, plan: Plan)
    requires graph.nodes == NodesUpTo(6, plan)
    modifies graph
    ensures graph.nodes == NodesUpTo(9, plan)
    ensures graph.edges == old(graph.edges) && graph.branches == old(graph.branches)
  {
    AddStage(graph, RetrievePolicies, plan);
    AddStage(graph, SkipPolicyRetrieval, plan);
    AddStage(graph, BuildPrompt, plan);
  }

  method AddModelStages(graph: StateGraph<Stage, World>, plan: Plan)
    requires graph.nodes == NodesUpTo(9, plan)
    modifies graph
    ensures graph.nodes == NodesUpTo(12, plan)
    ensures graph.edges == old(graph.edges) && graph.branches == old(graph.branches)
  {
    AddStage(graph, CallLlm, plan);
    AddStage(graph, ValidateFindings, plan);
    AddStage(graph, AssembleResult, plan);
  }

  method AddFinalStages(graph: StateGraph<Stage, World>, plan: Plan)
    requires graph.nodes == NodesUpTo(12, plan)
    modifies graph
    ensures graph.nodes == NodesUpTo(15, plan)
    ensures graph.edges == old(graph.edges) && graph.branches == old(graph.branches)
  {
    AddStage(graph, PersistResult, plan);
    AddStage(graph, PublishComment, plan);
    AddStage(graph, CompleteReview, plan);
  }

  method AddStageEdges(graph: StateGraph<Stage, World>)
    requires graph.edges == map[]
    modifies graph
    ensures graph.edges == EdgesUpTo(15)
    ensures graph.nodes == old(graph.nodes) && graph.branches == old(graph.branches)
  {
    ConnectFirstStages(graph);
    NoPlainEdgeAtBranch();
    ConnectPromptStages(graph);
    ConnectLastStages(graph);
  }

  method ConnectFirstStages(graph: StateGraph<Stage, World>)
    requires graph.edges == map[]
    modifies graph
    ensures graph.edges == EdgesUpTo(5)
    ensures graph.nodes == old(graph.nodes) && graph.branches == old(graph.branches)
  {
    Connect(graph, Start, CreateReview);
    Connect(graph, CreateReview, ExtractFeatures);
    Connect(graph, ExtractFeatures, SelectRoute);
    Connect(graph, SelectRoute, AnalyzeComplexity);
    Connect(graph, AnalyzeComplexity, SelectHarness);
  }

  method ConnectPromptStages(graph: StateGraph<Stage, World>)
    requires graph.edges == EdgesUpTo(6)
    modifies graph
    ensures graph.edges == EdgesUpTo(11)
    ensures graph.nodes == old(graph.nodes) && graph.branches == old(graph.branches)
  {
    Connect(graph, RetrievePolicies, BuildPrompt);
    Connect(graph, SkipPolicyRetrieval, BuildPrompt);
    Connect(graph, BuildPrompt, CallLlm);
    Connect(graph, CallLlm, ValidateFindings);
    Connect(graph, ValidateFindings, AssembleResult);
  }

  method ConnectLastStages(graph: StateGraph<Stage, World>)
    requires graph.edges == EdgesUpTo(11)
    modifies graph
    ensures graph.edges == EdgesUpTo(15)
    ensures graph.nodes == old(graph.nodes) && graph.branches == old(graph.branches)
  {
    Connect(graph, AssembleResult, PersistResult);
    Connect(graph, PersistResult, PublishComment);
    Connect(graph, PublishComment, CompleteReview);
    Connect(graph, CompleteReview, End);
  }

  // ---------------------------------------------------------------- running a stage

  ghost predicate AllSucceed(fails: nat -> bool, low: nat, high: nat) {
    forall i: nat :: low <= i < high ==> !fails(i)
  }

  function Emitted(actions: seq<Action>): seq<Kind> {
    if actions == [] then []
    else (if actions[0].Emit? then [actions[0].kind] else []) + Emitted(actions[1..])
  }

  function Calls(actions: seq<Action>): nat {
    if actions == [] then 0 else (if actions[0].Call? then 1 else 0) + Calls(actions[1..])
  }

  /** Every key that the actions read is there. */
  ghost predicate ReadsAreIn(actions: seq<Action>, keys: set<Key>) {
    forall k :: Read(k) in actions ==> k in keys
  }

  /** From w, the actions end as described: all calls succeed and all is published, or one fails and
      the beginning is published. */
  ghost predicate RunsAs(r: Outcome<World>, fails: nat -> bool, w: World, events: seq<Kind>, calls: nat) {
    && (r.Done? <==> AllSucceed(fails, w.calls, w.calls + calls))
    && (r.Done? ==> r.state == World(w.keys, w.events + events, w.calls + calls))
    && (r.Raised? ==> r.state.events <= w.events + events)
  }

  lemma EmittedStep(events: seq<Kind>, actions: seq<Action>)
    requires actions != []
    ensures !actions[0].Emit? ==> Emitted(actions) == Emitted(actions[1..])
    ensures actions[0].Emit? ==> events + Emitted(actions) == (events + [actions[0].kind]) + Emitted(actions[1..])
  {
  }

  lemma CallStep(r: Outcome<World>, fails: nat -> bool, w: World, events: seq<Kind>, calls: nat)
    requires !fails(w.calls) && RunsAs(r, fails, w.(calls := w.calls + 1), events, calls)
    ensures RunsAs(r, fails, w, events, calls + 1)
  {
  }

  /** A stage whose keys are there publishes and calls as written, and raises exactly when one of its
      calls does. */
  lemma {:induction false} ActionsRun(actions: seq<Action>, fails: nat -> bool, w: World)
    requires ReadsAreIn(actions, w.keys)
    ensures RunsAs(RunActions(actions, fails, w), fails, w, Emitted(actions), Calls(actions))
    decreases actions
  {
    if actions == [] {
      assert w.events + [] == w.events;
    } else {
      var a, rest := actions[0], actions[1..];
      assert ReadsAreIn(rest, w.keys);
      EmittedStep(w.events, actions);
      match a
      case Read(key) =>
        assert Read(key) in actions;
        ActionsRun(rest, fails, w);
      case Call =>
        var called := w.(calls := w.calls + 1);
        if !fails(w.calls) {
          ActionsRun(rest, fails, called);
          CallStep(RunActions(rest, fails, called), fails, w, Emitted(rest), Calls(rest));
        }
      case Emit(kind) =>
        ActionsRun(rest, fails, w.(events := w.events + [kind]));
    }
  }

  /** What raises before its last action does so before its last event. */
  lemma {:induction false} RaisedBeforeEmit(actions: seq<Action>, fails: nat -> bool, w: World)
    requires ReadsAreIn(actions, w.keys) && RunActions(actions, fails, w).Raised?
    requires actions != [] && actions[|actions| - 1].Emit?
    ensures |RunActions(actions, fails, w).state.events| < |w.events| + |Emitted(actions)|
    decreases actions
  {
    var a, rest := actions[0], actions[1..];
    assert ReadsAreIn(rest, w.keys);
    EmitsSomething(actions);
    match a
    case Read(key) =>
      assert Read(key) in actions;
      RaisedBeforeEmit(rest, fails, w);
    case Call =>
      if !fails(w.calls) {
        RaisedBeforeEmit(rest, fails, w.(calls := w.calls + 1));
      }
    case Emit(kind) =>
      RaisedBeforeEmit(rest, fails, w.(events := w.events + [kind]));
  }

  lemma {:induction false} EmitsSomething(actions: seq<Action>)
    requires actions != [] && actions[|actions| - 1].Emit?
    ensures Emitted(actions) != []
  {
    if |actions| > 1 {
      EmitsSomething(actions[1..]);
    }
  }

  /** The events of actions, when the events of those after the first are known. */
  lemma EmittedAfter(actions: seq<Action>, later: seq<Kind>)
    requires actions != [] && Emitted(actions[1..]) == later
    ensures Emitted(actions) == (if actions[0].Emit? then [actions[0].kind] else []) + later
  {
  }

  lemma {:induction false} EmittedConcat(first: seq<Action>, rest: seq<Action>)
    ensures Emitted(first + rest) == Emitted(first) + Emitted(rest)
  {
    if first == [] {
      assert first + rest == rest;
    } else {
      var kinds, later := Emitted(first[1..]), Emitted(rest);
      EmittedConcat(first[1..], rest);
      assert (first + rest)[1..] == first[1..] + rest;
      EmittedAfter(first + rest, kinds + later);
      EmittedAfter(first, kinds);
      Regroup(if first[0].Emit? then [first[0].kind] else [], kinds, later);
    }
  }

  function Repeated(kind: Kind, n: nat): seq<Kind> {
    if n == 0 then [] else [kind] + Repeated(kind, n - 1)
  }

  lemma {:induction false} EmittedTimes(action: Action, n: nat)
    ensures Emitted(Times(action, n)) == if action.Emit? then Repeated(action.kind, n) else []
  {
    if n > 0 {
      EmittedTimes(action, n - 1);
      assert Times(action, n)[1..] == Times(action, n - 1);
    }
  }

  lemma {:induction false} RepeatedIs(kind: Kind, n: nat)
    ensures |Repeated(kind, n)| == n && forall k :: k in Repeated(kind, n) ==> k == kind
  {
    if n > 0 {
      RepeatedIs(kind, n - 1);
    }
  }

  lemma {:induction false} TimesIs(action: Action, n: nat)
    ensures forall a :: a in Times(action, n) ==> a == action
  {
    if n > 0 {
      TimesIs(action, n - 1);
    }
  }

  /** What a stage publishes. */
  function StageEvents(stage: Stage, batches: nat): seq<Kind> {
    match stage
    case CreateReview => [ReviewCreated]
    case ExtractFeatures => [FeaturesExtracted]
    case SelectRoute => [RouteSelected]
    case AnalyzeComplexity => [ComplexityAnalyzed]
    case SelectHarness => [ReviewHarnessSelected]
    case RetrievePolicies => [PolicyRetrievalStarted, PolicyRetrievalCompleted]
    case SkipPolicyRetrieval => [PolicyRetrievalSkipped]
    case BuildPrompt => [PromptBuilt]
    case CallLlm =>
      [LlmCallStarted]
      + (Repeated(LlmBatchStarted, batches)
         + (Repeated(LlmBatchCompleted, batches) + [LlmCallCompleted]))
    case ValidateFindings => [FindingsValidated]
    case PersistResult => [ReviewPersisted]
    case PublishComment => [CommentPublished]
    case CompleteReview => [ReviewCompleted]
    case _ => []
  }

  lemma {:induction false} QuietEmits(actions: seq<Action>)
    requires forall a :: a in actions ==> !a.Emit?
    ensures Emitted(actions) == []
  {
    if actions != [] {
      assert actions[0] in actions;
      QuietEmits(actions[1..]);
    }
  }

  lemma LastEmits(actions: seq<Action>, quiet: seq<Action>, kind: Kind)
    requires actions == quiet + [Emit(kind)] && forall a :: a in quiet ==> !a.Emit?
    ensures Emitted(actions) == [kind]
  {
    QuietEmits(quiet);
    EmittedConcat(quiet, [Emit(kind)]);
    assert Emitted([Emit(kind)]) == [kind];
  }

  lemma EmitsThen(first: seq<Action>, rest: seq<Action>, kinds: seq<Kind>, later: seq<Kind>)
    requires Emitted(first) == kinds && Emitted(rest) == later
    ensures Emitted(first + rest) == kinds + later
  {
    EmittedConcat(first, rest);
  }

  lemma QuietThen(first: seq<Action>, rest: seq<Action>)
    requires forall a :: a in first ==> !a.Emit?
    ensures Emitted(first + rest) == Emitted(rest)
  {
    QuietEmits(first);
    EmittedConcat(first, rest);
  }

  lemma CallLlmEvents(batches: nat)
    ensures Emitted(Actions(CallLlm, batches)) == StageEvents(CallLlm, batches)
  {
    var opening, done := [Read(Route), Read(PromptBatches), Emit(LlmCallStarted)], [Emit(LlmCallCompleted)];
    var start, complete := Times(Emit(LlmBatchStarted), batches), Times(Emit(LlmBatchCompleted), batches);
    var completed := complete + done;
    var called := Times(Call, batches) + completed;
    var asked := [Read(ReviewRunId)] + called;
    LastEmits(done, [], LlmCallCompleted);
    EmittedTimes(Emit(LlmBatchCompleted), batches);
    EmitsThen(complete, done, Repeated(LlmBatchCompleted, batches), [LlmCallCompleted]);
    TimesIs(Call, batches);
    QuietThen(Times(Call, batches), completed);
    QuietThen([Read(ReviewRunId)], called);
    EmittedTimes(Emit(LlmBatchStarted), batches);
    EmitsThen(start, asked, Repeated(LlmBatchStarted, batches),
              Repeated(LlmBatchCompleted, batches) + [LlmCallCompleted]);
    LastEmits(opening, [Read(Route), Read(PromptBatches)], LlmCallStarted);
    EmittedConcat(opening, start + asked);
  }

  lemma RetrievalEvents(batches: nat)
    ensures Emitted(Actions(RetrievePolicies, batches)) == StageEvents(RetrievePolicies, batches)
  {
    var first, rest := [Read(ReviewHarness), Emit(PolicyRetrievalStarted)],
        [Read(Request), Call, Call, Emit(PolicyRetrievalCompleted)];
    assert Actions(RetrievePolicies, batches) == first + rest;
    EmittedConcat(first, rest);
    LastEmits(first, [Read(ReviewHarness)], PolicyRetrievalStarted);
    LastEmits(rest, [Read(Request), Call, Call], PolicyRetrievalCompleted);
  }

  lemma StageEmits(stage: Stage, batches: nat)
    ensures Emitted(Actions(stage, batches)) == StageEvents(stage, batches)
  {
    var actions := Actions(stage, batches);
    match stage
    case Start =>
    case End =>
    case CallLlm => CallLlmEvents(batches);
    case RetrievePolicies => RetrievalEvents(batches);
    case AssembleResult => QuietEmits(actions);
    case _ =>
      LastEmits(actions, actions[..|actions| - 1], actions[|actions| - 1].kind);
  }

  lemma {:induction false} CallsConcat(first: seq<Action>, rest: seq<Action>)
    ensures Calls(first + rest) == Calls(first) + Calls(rest)
  {
    if first == [] {
      assert first + rest == rest;
    } else {
      assert (first + rest)[1..] == first[1..] + rest;
      CallsConcat(first[1..], rest);
    }
  }

  lemma {:induction false} CallsTimes(action: Action, n: nat)
    ensures Calls(Times(action, n)) == if action.Call? then n else 0
  {
    if n > 0 {
      CallsTimes(action, n - 1);
      assert Times(action, n)[1..] == Times(action, n - 1);
    }
  }

  lemma {:induction false} QuietCalls(actions: seq<Action>)
    requires forall a :: a in actions ==> !a.Call?
    ensures Calls(actions) == 0
  {
    if actions != [] {
      assert actions[0] in actions;
      QuietCalls(actions[1..]);
    }
  }

  lemma OneCall(actions: seq<Action>, before: seq<Action>, after: seq<Action>)
    requires actions == before + ([Call] + after)
    requires forall a :: a in before || a in after ==> !a.Call?
    ensures Calls(actions) == 1
  {
    QuietCalls(before);
    QuietCalls(after);
    CallsConcat(before, [Call] + after);
    CallsConcat([Call], after);
  }

  /** The calls of a stage that may fail. */
  function StageCalls(stage: Stage, batches: nat): nat {
    match stage
    case Start => 0
    case End => 0
    case CreateReview => 0
    case SkipPolicyRetrieval => 0
    case AssembleResult => 0
    case CompleteReview => 0
    case RetrievePolicies => 2
    case CallLlm => batches
    case _ => 1
  }

  lemma CallLlmCalls(batches: nat)
    ensures Calls(Actions(CallLlm, batches)) == batches
  {
    var completed := Times(Emit(LlmBatchCompleted), batches) + [Emit(LlmCallCompleted)];
    var called := Times(Call, batches) + completed;
    var asked := [Read(ReviewRunId)] + called;
    var started := Times(Emit(LlmBatchStarted), batches) + asked;
    TimesIs(Emit(LlmBatchCompleted), batches);
    TimesIs(Emit(LlmBatchStarted), batches);
    QuietCalls(completed);
    CallsTimes(Call, batches);
    CallsConcat(Times(Call, batches), completed);
    QuietCalls([Read(ReviewRunId)]);
    CallsConcat([Read(ReviewRunId)], called);
    QuietCalls(Times(Emit(LlmBatchStarted), batches));
    CallsConcat(Times(Emit(LlmBatchStarted), batches), asked);
    QuietCalls([Read(Route), Read(PromptBatches), Emit(LlmCallStarted)]);
    CallsConcat([Read(Route), Read(PromptBatches), Emit(LlmCallStarted)], started);
  }

  lemma RetrievalCalls(batches: nat)
    ensures Calls(Actions(RetrievePolicies, batches)) == 2
  {
    var before, after := [Read(ReviewHarness), Emit(PolicyRetrievalStarted), Read(Request), Call],
        [Call, Emit(PolicyRetrievalCompleted)];
    assert Actions(RetrievePolicies, batches) == before + after;
    CallsConcat(before, after);
    OneCall(before, before[..3], []);
    OneCall(after, [], after[1..]);
  }

  predicate IsQuiet(stage: Stage) {
    stage in {CreateReview, SkipPolicyRetrieval, AssembleResult, CompleteReview}
  }

  lemma QuietStageCalls(stage: Stage, batches: nat)
    requires IsQuiet(stage)
    ensures Calls(Actions(stage, batches)) == 0
  {
    QuietCalls(Actions(stage, batches));
  }

  /** Keys read, one call, and what is published after it. */
  lemma CallBeforeLast(actions: seq<Action>, first: seq<Action>, kind: Kind)
    requires actions == first + [Call, Emit(kind)] && forall a :: a in first ==> a.Read?
    ensures Calls(actions) == 1
  {
    assert first + [Call, Emit(kind)] == first + ([Call] + [Emit(kind)]);
    OneCall(actions, first, [Emit(kind)]);
  }

  lemma EarlyStageCalls(stage: Stage, batches: nat)
    requires stage in {ExtractFeatures, SelectRoute, AnalyzeComplexity, SelectHarness}
    ensures Calls(Actions(stage, batches)) == 1
  {
    match stage
    case ExtractFeatures => CallBeforeLast(Actions(stage, batches), [Read(Request)], FeaturesExtracted);
    case SelectRoute => CallBeforeLast(Actions(stage, batches), [Read(Features), Read(Request)], RouteSelected);
    case AnalyzeComplexity => CallBeforeLast(Actions(stage, batches), [Read(Request)], ComplexityAnalyzed);
    case SelectHarness =>
      CallBeforeLast(Actions(stage, batches), [Read(Request), Read(Route)], ReviewHarnessSelected);
  }

  lemma LateStageCalls(stage: Stage, batches: nat)
    requires stage in {ValidateFindings, PersistResult, PublishComment}
    ensures Calls(Actions(stage, batches)) == 1
  {
    match stage
    case ValidateFindings =>
      CallBeforeLast(
        Actions(stage, batches), [Read(Request), Read(Route), Read(Policies), Read(Findings), Read(ReviewHarness)],
        FindingsValidated);
    case PersistResult => CallBeforeLast(Actions(stage, batches), [Read(Result)], ReviewPersisted);
    case PublishComment => CallBeforeLast(Actions(stage, batches), [Read(Request), Read(Result)], CommentPublished);
  }

  lemma PromptCalls(batches: nat)
    ensures Calls(Actions(BuildPrompt, batches)) == 1
  {
    OneCall(Actions(BuildPrompt, batches), [Read(Request), Read(Route), Read(Policies)],
            [Read(ReviewHarness), Emit(PromptBuilt)]);
  }

  lemma StageCallsAre(stage: Stage, batches: nat)
    ensures Calls(Actions(stage, batches)) == StageCalls(stage, batches)
  {
    if IsQuiet(stage) {
      QuietStageCalls(stage, batches);
    } else if stage == CallLlm {
      CallLlmCalls(batches);
    } else if stage == RetrievePolicies {
      RetrievalCalls(batches);
    } else if stage == BuildPrompt {
      PromptCalls(batches);
    } else if stage in {ExtractFeatures, SelectRoute, AnalyzeComplexity, SelectHarness} {
      EarlyStageCalls(stage, batches);
    } else if stage in {ValidateFindings, PersistResult, PublishComment} {
      LateStageCalls(stage, batches);
    }
  }

  // ---------------------------------------------------------------- running the graph

  function Next(stage: Stage, useRag: bool): (next: Stage)
    ensures stage != End ==> Order(stage) < Order(next)
  {
    if stage == SelectHarness then (if useRag then RetrievePolicies else SkipPolicyRetrieval) else Edge(stage)
  }

  /** The stages from one stage to the end. */
  function Rest(stage: Stage, useRag: bool): seq<Stage>
    decreases 15 - Order(stage)
  {
    if stage == End then [] else [stage] + Rest(Next(stage, useRag), useRag)
  }

  function EventsFrom(stage: Stage, plan: Plan): seq<Kind>
    decreases 15 - Order(stage)
  {
    if stage == End then [] else StageEvents(stage, plan.batches) + EventsFrom(Next(stage, plan.useRag), plan)
  }

  function CallsFrom(stage: Stage, plan: Plan): nat
    decreases 15 - Order(stage)
  {
    if stage == End then 0 else StageCalls(stage, plan.batches) + CallsFrom(Next(stage, plan.useRag), plan)
  }

  /** The place of the first stage that writes a key; the input has place zero. */
  function Birth(key: Key): nat {
    match key
    case ReviewRunId => 0
    case Request => 0
    case PolicyAvailable => 2
    case Features => 2
    case Route => 3
    case ComplexityMetrics => 4
    case ReviewHarness => 5
    case Policies => 7
    case PromptBatches => 8
    case Summary => 9
    case Findings => 9
    case Usage => 9
    case FindingValidation => 10
    case Result => 11
    case PublishResult => 13
  }

  /** The keys written before a stage are there. */
  ghost predicate Ready(stage: Stage, keys: set<Key>) {
    forall k :: Birth(k) < Order(stage) ==> k in keys
  }

  lemma StageReads(stage: Stage, batches: nat, keys: set<Key>)
    requires Ready(stage, keys)
    ensures ReadsAreIn(Actions(stage, batches), keys)
  {
    if stage == CallLlm {
      TimesIs(Emit(LlmBatchStarted), batches);
      TimesIs(Call, batches);
      TimesIs(Emit(LlmBatchCompleted), batches);
    }
  }

  lemma ReadyNext(stage: Stage, useRag: bool, keys: set<Key>)
    requires stage != End && stage != Start && Ready(stage, keys)
    ensures Ready(Next(stage, useRag), keys + Writes(stage)) && Next(stage, useRag) != Start
  {
  }

  lemma StageCalled(plan: Plan, stage: Stage, w: World)
    requires stage != Start && stage != End
    ensures CallNode(ReviewGraph(plan), stage, w) == RunStage(stage, plan, w)
  {
  }

  lemma StageFollowed(plan: Plan, stage: Stage, w: World)
    requires stage != Start && stage != End && (stage == SelectHarness ==> Route in w.keys)
    ensures Following(ReviewGraph(plan), stage, w) == Some(Runnable(End, [Next(stage, plan.useRag)]))
  {
  }

  /** How a run that should go through `stages` ends: after all of them with all their events, if none
      of their calls fails; else with an exception, and before the last two events. */
  ghost predicate EndsAs(
    fails: nat -> bool, w: World, stages: seq<Stage>, events: seq<Kind>, calls: nat, path: seq<Stage>,
        finish: Outcome<World>)
  {
    && path <= stages
    && (finish.Done? <==> AllSucceed(fails, w.calls, w.calls + calls))
    && (finish.Done? ==> path == stages && finish.state.events == w.events + events && Result in finish.state.keys)
    && (finish.Raised? ==>
          finish.state.events <= w.events + events && |finish.state.events| + 2 <= |w.events| + |events|)
  }

  /** The first stage raised. */
  lemma EndsHere(
    fails: nat -> bool, w: World, stage: Stage, events: seq<Kind>, calls: nat, stages: seq<Stage>,
        laterEvents: seq<Kind>,
    laterCalls: nat, finish: Outcome<World>)
    requires finish.Raised? && laterEvents != [] && !AllSucceed(fails, w.calls, w.calls + calls)
    requires finish.state.events <= w.events + events && |finish.state.events| < |w.events| + |events|
    ensures EndsAs(fails, w, [stage] + stages, events + laterEvents, calls + laterCalls, [stage], finish)
  {
  }

  /** The first stage went well, and so it depends on the rest. */
  lemma EndsLater(
    fails: nat -> bool, w: World, stage: Stage, events: seq<Kind>, calls: nat, stages: seq<Stage>,
        laterEvents: seq<Kind>,
    laterCalls: nat, t: World, path: seq<Stage>, finish: Outcome<World>)
    requires AllSucceed(fails, w.calls, w.calls + calls)
    requires t.events == w.events + events && t.calls == w.calls + calls
    ensures EndsAs(fails, t, stages, laterEvents, laterCalls, path, finish) ==>
              EndsAs(fails, w, [stage] + stages, events + laterEvents, calls + laterCalls, [stage] + path, finish)
  {
  }

  /** The stage went well and published all it has to. */
  ghost predicate WentWell(plan: Plan, stage: Stage, w: World, t: World) {
    && AllSucceed(plan.fails, w.calls, w.calls + StageCalls(stage, plan.batches))
    && t.events == w.events + StageEvents(stage, plan.batches)
    && t.calls == w.calls + StageCalls(stage, plan.batches)
  }

  /** The stage raised, with the beginning of its events published. */
  ghost predicate WentWrong(plan: Plan, stage: Stage, w: World, t: World) {
    && !AllSucceed(plan.fails, w.calls, w.calls + StageCalls(stage, plan.batches))
    && t.events <= w.events + StageEvents(stage, plan.batches)
    && |t.events| < |w.events| + |StageEvents(stage, plan.batches)|
  }

  lemma CallersEmitLast(stage: Stage, batches: nat)
    requires StageCalls(stage, batches) > 0
    ensures var actions := Actions(stage, batches);
            actions != [] && actions[|actions| - 1].Emit?
  {
  }

  /** Running one stage whose keys are there. */
  lemma OneStage(plan: Plan, stage: Stage, w: World, r: Outcome<World>)
    requires stage != Start && stage != End && Ready(stage, w.keys) && r == CallNode(ReviewGraph(plan), stage, w)
    ensures r.Raised? ==> WentWrong(plan, stage, w, r.state)
    ensures r.Done? ==> WentWell(plan, stage, w, r.state)
    ensures r.Done? ==> Next(stage, plan.useRag) != Start && Ready(Next(stage, plan.useRag), r.state.keys)
    ensures r.Done? ==> Following(ReviewGraph(plan), stage, r.state) == Some(Runnable(End, [Next(stage, plan.useRag)]))
  {
    StageCalled(plan, stage, w);
    StageRuns(plan, stage, w, RunActions(Actions(stage, plan.batches), plan.fails, w));
    if r.Done? {
      StageGoesOn(plan, stage, w, r.state);
    }
  }

  /** The actions of a stage, before its keys are written. */
  lemma StageRuns(plan: Plan, stage: Stage, w: World, run: Outcome<World>)
    requires Ready(stage, w.keys) && run == RunActions(Actions(stage, plan.batches), plan.fails, w)
    ensures run.Raised? ==> WentWrong(plan, stage, w, run.state)
    ensures run.Done? ==> WentWell(plan, stage, w, run.state) && run.state.keys == w.keys
  {
    StageReads(stage, plan.batches, w.keys);
    ActionsRun(Actions(stage, plan.batches), plan.fails, w);
    StageEmits(stage, plan.batches);
    StageCallsAre(stage, plan.batches);
    if run.Raised? {
      CallersEmitLast(stage, plan.batches);
      RaisedBeforeEmit(Actions(stage, plan.batches), plan.fails, w);
    }
  }

  lemma StageGoesOn(plan: Plan, stage: Stage, w: World, after: World)
    requires stage != Start && stage != End && Ready(stage, w.keys) && after.keys == w.keys + Writes(stage)
    ensures Next(stage, plan.useRag) != Start && Ready(Next(stage, plan.useRag), after.keys)
    ensures Following(ReviewGraph(plan), stage, after) == Some(Runnable(End, [Next(stage, plan.useRag)]))
  {
    ReadyNext(stage, plan.useRag, w.keys);
    assert stage == SelectHarness ==> Birth(Route) < Order(stage);
    StageFollowed(plan, stage, after);
  }

  lemma {:induction false} LastEventLeft(stage: Stage, plan: Plan)
    requires stage != End
    ensures EventsFrom(stage, plan) != []
    decreases 15 - Order(stage)
  {
  }

  ghost predicate StageEndsAs(plan: Plan, stage: Stage, w: World, path: seq<Stage>, finish: Outcome<World>) {
    EndsAs(plan.fails, w, Rest(stage, plan.useRag), EventsFrom(stage, plan), CallsFrom(stage, plan), path, finish)
  }

  lemma StageRaised(plan: Plan, stage: Stage, w: World, r: Outcome<World>)
    requires stage != Start && stage != End && r.Raised?
    ensures WentWrong(plan, stage, w, r.state) ==> StageEndsAs(plan, stage, w, [stage], r)
  {
    if WentWrong(plan, stage, w, r.state) {
      var next := Next(stage, plan.useRag);
      assert stage != CompleteReview;
      LastEventLeft(next, plan);
      EndsHere(plan.fails, w, stage, StageEvents(stage, plan.batches), StageCalls(stage, plan.batches),
               Rest(next, plan.useRag), EventsFrom(next, plan), CallsFrom(next, plan), r);
    }
  }

  lemma StageWentWell(plan: Plan, stage: Stage, w: World, t: World, path: seq<Stage>, finish: Outcome<World>)
    requires stage != Start && stage != End
    ensures WentWell(plan, stage, w, t) && StageEndsAs(plan, Next(stage, plan.useRag), t, path, finish) ==>
              StageEndsAs(plan, stage, w, [stage] + path, finish)
  {
    var next := Next(stage, plan.useRag);
    if WentWell(plan, stage, w, t) {
      EndsLater(plan.fails, w, stage, StageEvents(stage, plan.batches), StageCalls(stage, plan.batches),
                Rest(next, plan.useRag), EventsFrom(next, plan), CallsFrom(next, plan), t, path, finish);
    }
  }

  lemma EndsAtEnd(plan: Plan, w: World)
    requires Ready(End, w.keys)
    ensures StageEndsAs(plan, End, w, [], Done(w))
  {
  }

  lemma {:induction false} WalkEnds(
      plan: Plan, leftmost: bool, stage: Stage, w: World, path: seq<Stage>, finish: Outcome<World>)
    requires stage != Start && stage != End && Ready(stage, w.keys)
    requires Walk(ReviewGraph(plan), leftmost, [stage], w, path, finish)
    ensures StageEndsAs(plan, stage, w, path, finish)
    decreases 15 - Order(stage), 0
  {
    var g, next := ReviewGraph(plan), Next(stage, plan.useRag);
    var r := CallNode(g, stage, w);
    OneStage(plan, stage, w, r);
    WalkOne(g, leftmost, stage, w, path, finish);
    if r.Raised? {
      StageRaised(plan, stage, w, r);
    } else {
      WalkOn(g, leftmost, stage, w, path, finish, r.state, Runnable(End, [next]));
      WalkGoesOn(plan, leftmost, next, r.state, path[1..], finish);
      StageWentWell(plan, stage, w, r.state, path[1..], finish);
    }
  }

  lemma {:induction false} WalkGoesOn(
      plan: Plan, leftmost: bool, next: Stage, t: World, path: seq<Stage>, finish: Outcome<World>)
    requires next != Start && Ready(next, t.keys)
    requires Walk(ReviewGraph(plan), leftmost, Runnable(End, [next]), t, path, finish)
    ensures StageEndsAs(plan, next, t, path, finish)
    decreases 15 - Order(next), 1
  {
    if next == End {
      assert Runnable(End, [next]) == [];
      WalkNone(ReviewGraph(plan), leftmost, t, path, finish);
      EndsAtEnd(plan, t);
    } else {
      assert Runnable(End, [next]) == [next];
      WalkEnds(plan, leftmost, next, t, path, finish);
    }
  }

  // ---------------------------------------------------------------- one review

  const INPUT := World({ReviewRunId, Request}, [], 0)

  /** The stages of a review that nothing stops. */
  function AllStages(useRag: bool): seq<Stage> {
    [CreateReview, ExtractFeatures, SelectRoute, AnalyzeComplexity, SelectHarness,
     if useRag then RetrievePolicies else SkipPolicyRetrieval,
     BuildPrompt, CallLlm, ValidateFindings, AssembleResult, PersistResult, PublishComment, CompleteReview]
  }

  /** Their events. */
  function AllEvents(useRag: bool, batches: nat): seq<Kind> {
    [ReviewCreated, FeaturesExtracted, RouteSelected, ComplexityAnalyzed, ReviewHarnessSelected]
    + ((if useRag then [PolicyRetrievalStarted, PolicyRetrievalCompleted] else [PolicyRetrievalSkipped])
    + ([PromptBuilt, LlmCallStarted]
    + (Repeated(LlmBatchStarted, batches) + (Repeated(LlmBatchCompleted, batches)
    + [LlmCallCompleted, FindingsValidated, ReviewPersisted, CommentPublished, ReviewCompleted]))))
  }

  /** How many calls a review makes that may fail. */
  function AllCalls(useRag: bool, batches: nat): nat {
    (if useRag then 10 else 8) + batches
  }

  lemma RestStep(stage: Stage, next: Stage, useRag: bool, rest: seq<Stage>)
    requires stage != End && next == Next(stage, useRag) && rest == Rest(next, useRag)
    ensures Rest(stage, useRag) == [stage] + rest
  {
  }

  lemma FiveOnto<T>(a: T, b: T, c: T, d: T, e: T, rest: seq<T>)
    ensures [a] + ([b] + ([c] + ([d] + ([e] + rest)))) == [a, b, c, d, e] + rest
  {
  }

  lemma StagesAfterLlm(useRag: bool)
    ensures Rest(ValidateFindings, useRag)
         == [ValidateFindings, AssembleResult, PersistResult, PublishComment, CompleteReview] + []
  {
  }

  lemma StagesBeforeRetrieval(useRag: bool, retrieval: Stage, rest: seq<Stage>)
    requires retrieval == Next(SelectHarness, useRag) && rest == Rest(retrieval, useRag)
    ensures Rest(CreateReview, useRag)
         == [CreateReview, ExtractFeatures, SelectRoute, AnalyzeComplexity, SelectHarness] + rest
  {
    RestStep(SelectHarness, retrieval, useRag, rest);
    var r4 := [SelectHarness] + rest;
    RestStep(AnalyzeComplexity, SelectHarness, useRag, r4);
    var r3 := [AnalyzeComplexity] + r4;
    RestStep(SelectRoute, AnalyzeComplexity, useRag, r3);
    var r2 := [SelectRoute] + r3;
    RestStep(ExtractFeatures, SelectRoute, useRag, r2);
    var r1 := [ExtractFeatures] + r2;
    RestStep(CreateReview, ExtractFeatures, useRag, r1);
    FiveOnto(CreateReview, ExtractFeatures, SelectRoute, AnalyzeComplexity, SelectHarness, rest);
  }

  lemma StagesAre(useRag: bool)
    ensures Rest(CreateReview, useRag) == AllStages(useRag)
  {
    var retrieval := Next(SelectHarness, useRag);
    StagesAfterLlm(useRag);
    var r8 := [ValidateFindings, AssembleResult, PersistResult, PublishComment, CompleteReview] + [];
    RestStep(CallLlm, ValidateFindings, useRag, r8);
    RestStep(BuildPrompt, CallLlm, useRag, [CallLlm] + r8);
    var r6 := [BuildPrompt] + ([CallLlm] + r8);
    RestStep(retrieval, BuildPrompt, useRag, r6);
    StagesBeforeRetrieval(useRag, retrieval, [retrieval] + r6);
  }

  lemma EventsStep(stage: Stage, next: Stage, plan: Plan, own: seq<Kind>, later: seq<Kind>)
    requires stage != End && next == Next(stage, plan.useRag) && own == StageEvents(stage, plan.batches)
    requires later == EventsFrom(next, plan)
    ensures EventsFrom(stage, plan) == own + later
  {
  }

  lemma Grouped<T>(a: seq<T>, b: seq<T>, c: seq<T>)
    ensures a + (b + c) == (a + b) + c
  {
  }

  lemma EventsAfterLlm(plan: Plan, after: seq<Kind>)
    requires after == [FindingsValidated, ReviewPersisted, CommentPublished, ReviewCompleted]
    ensures EventsFrom(ValidateFindings, plan) == after
  {
    var later := [ReviewPersisted] + [CommentPublished, ReviewCompleted];
    EventsFromPublish(plan);
    EventsStep(PersistResult, PublishComment, plan, [ReviewPersisted], [CommentPublished, ReviewCompleted]);
    EventsStep(AssembleResult, PersistResult, plan, [], later);
    assert [] + later == later;
    EventsStep(ValidateFindings, AssembleResult, plan, [FindingsValidated], later);
  }

  lemma EventsFromPublish(plan: Plan)
    ensures EventsFrom(PublishComment, plan) == [CommentPublished, ReviewCompleted]
  {
    EventsStep(CompleteReview, End, plan, [ReviewCompleted], []);
    assert [ReviewCompleted] + [] == [ReviewCompleted];
    EventsStep(PublishComment, CompleteReview, plan, [CommentPublished], [ReviewCompleted]);
  }

  lemma EventsFromLlm(plan: Plan, after: seq<Kind>)
    requires after == [FindingsValidated, ReviewPersisted, CommentPublished, ReviewCompleted]
    ensures EventsFrom(CallLlm, plan)
         == [LlmCallStarted] + (Repeated(LlmBatchStarted, plan.batches) + (Repeated(LlmBatchCompleted, plan.batches)
            + ([LlmCallCompleted] + after)))
  {
    EventsAfterLlm(plan, after);
    var started, completed := Repeated(LlmBatchStarted, plan.batches), Repeated(LlmBatchCompleted, plan.batches);
    var done := completed + [LlmCallCompleted];
    EventsStep(CallLlm, ValidateFindings, plan, [LlmCallStarted] + (started + done), after);
    Grouped([LlmCallStarted], started + done, after);
    Grouped(started, done, after);
    Grouped(completed, [LlmCallCompleted], after);
  }

  lemma EventsFromComplexity(plan: Plan, retrieval: Stage, later: seq<Kind>)
    requires retrieval == Next(SelectHarness, plan.useRag) && later == EventsFrom(retrieval, plan)
    ensures EventsFrom(AnalyzeComplexity, plan) == [ComplexityAnalyzed] + ([ReviewHarnessSelected] + later)
  {
  }

  lemma EventsBeforeComplexity(plan: Plan, later: seq<Kind>)
    requires later == EventsFrom(AnalyzeComplexity, plan)
    ensures EventsFrom(CreateReview, plan) == [ReviewCreated] + ([FeaturesExtracted] + ([RouteSelected] + later))
  {
    EventsStep(SelectRoute, AnalyzeComplexity, plan, [RouteSelected], later);
    EventsStep(ExtractFeatures, SelectRoute, plan, [FeaturesExtracted], [RouteSelected] + later);
    EventsStep(CreateReview, ExtractFeatures, plan, [ReviewCreated], [FeaturesExtracted] + ([RouteSelected] + later));
  }

  lemma EventsBeforeRetrieval(plan: Plan, retrieval: Stage, later: seq<Kind>)
    requires retrieval == Next(SelectHarness, plan.useRag) && later == EventsFrom(retrieval, plan)
    ensures EventsFrom(CreateReview, plan)
         == [ReviewCreated, FeaturesExtracted, RouteSelected, ComplexityAnalyzed, ReviewHarnessSelected] + later
  {
    EventsFromComplexity(plan, retrieval, later);
    EventsBeforeComplexity(plan, [ComplexityAnalyzed] + ([ReviewHarnessSelected] + later));
    FiveOnto(ReviewCreated, FeaturesExtracted, RouteSelected, ComplexityAnalyzed, ReviewHarnessSelected, later);
  }

  lemma EventsFromPrompt(plan: Plan, calls: seq<Kind>)
    requires calls == Repeated(LlmBatchStarted, plan.batches) + (Repeated(LlmBatchCompleted, plan.batches)
                      + [LlmCallCompleted, FindingsValidated, ReviewPersisted, CommentPublished, ReviewCompleted])
    ensures EventsFrom(BuildPrompt, plan) == [PromptBuilt, LlmCallStarted] + calls
  {
    var after := [FindingsValidated, ReviewPersisted, CommentPublished, ReviewCompleted];
    EventsFromLlm(plan, after);
    assert [LlmCallCompleted] + after
        == [LlmCallCompleted, FindingsValidated, ReviewPersisted, CommentPublished, ReviewCompleted];
    EventsStep(BuildPrompt, CallLlm, plan, [PromptBuilt], [LlmCallStarted] + calls);
    Grouped([PromptBuilt], [LlmCallStarted], calls);
    assert [PromptBuilt] + [LlmCallStarted] == [PromptBuilt, LlmCallStarted];
  }

  lemma RetrievalIsKnown(retrieval: Stage, useRag: bool, batches: nat)
    requires retrieval == Next(SelectHarness, useRag)
    ensures StageEvents(retrieval, batches)
         == if useRag then [PolicyRetrievalStarted, PolicyRetrievalCompleted] else [PolicyRetrievalSkipped]
  {
  }

  lemma EventsAre(plan: Plan)
    ensures EventsFrom(CreateReview, plan) == AllEvents(plan.useRag, plan.batches)
  {
    var retrieval := Next(SelectHarness, plan.useRag);
    var calls := Repeated(LlmBatchStarted, plan.batches) + (Repeated(LlmBatchCompleted, plan.batches)
      + [LlmCallCompleted, FindingsValidated, ReviewPersisted, CommentPublished, ReviewCompleted]);
    EventsFromPrompt(plan, calls);
    var later := [PromptBuilt, LlmCallStarted] + calls;
    EventsStep(retrieval, BuildPrompt, plan, StageEvents(retrieval, plan.batches), later);
    EventsBeforeRetrieval(plan, retrieval, StageEvents(retrieval, plan.batches) + later);
    RetrievalIsKnown(retrieval, plan.useRag, plan.batches);
  }

  lemma CallsStep(stage: Stage, next: Stage, plan: Plan, later: nat)
    requires stage != End && next == Next(stage, plan.useRag) && later == CallsFrom(next, plan)
    ensures CallsFrom(stage, plan) == StageCalls(stage, plan.batches) + later
  {
  }

  lemma CallsAfterLlm(plan: Plan)
    ensures CallsFrom(ValidateFindings, plan) == 3
  {
  }

  lemma CallsBeforeRetrieval(plan: Plan, retrieval: Stage, later: nat)
    requires retrieval == Next(SelectHarness, plan.useRag) && later == CallsFrom(retrieval, plan)
    ensures CallsFrom(CreateReview, plan) == 4 + later
  {
    CallsStep(SelectHarness, retrieval, plan, later);
    CallsStep(AnalyzeComplexity, SelectHarness, plan, 1 + later);
    CallsStep(SelectRoute, AnalyzeComplexity, plan, 2 + later);
    CallsStep(ExtractFeatures, SelectRoute, plan, 3 + later);
    CallsStep(CreateReview, ExtractFeatures, plan, 4 + later);
  }

  lemma CallsAre(plan: Plan)
    ensures CallsFrom(CreateReview, plan) == AllCalls(plan.useRag, plan.batches)
  {
    CallsAfterLlm(plan);
    CallsStep(CallLlm, ValidateFindings, plan, 3);
    CallsStep(BuildPrompt, CallLlm, plan, plan.batches + 3);
    var retrieval := Next(SelectHarness, plan.useRag);
    CallsStep(retrieval, BuildPrompt, plan, plan.batches + 4);
    CallsBeforeRetrieval(plan, retrieval, CallsFrom(retrieval, plan));
  }

  // ---------------------------------------------------------------- what a run does

  /** Any run of the graph on its input, in whatever order pending nodes were taken. */
  ghost predicate IsRun(plan: Plan, leftmost: bool, path: seq<Stage>, finish: Outcome<World>) {
    var g := ReviewGraph(plan);
    Walk(g, leftmost, Targets(g, g.start), INPUT, path, finish)
  }

  lemma RunEnds(plan: Plan, leftmost: bool, path: seq<Stage>, finish: Outcome<World>)
    requires IsRun(plan, leftmost, path, finish)
    ensures EndsAs(plan.fails, INPUT, AllStages(plan.useRag), AllEvents(plan.useRag, plan.batches),
                   AllCalls(plan.useRag, plan.batches), path, finish)
  {
    assert Start in EdgesUpTo(15);
    WalkEnds(plan, leftmost, CreateReview, INPUT, path, finish);
    StagesAre(plan.useRag);
    EventsAre(plan);
    CallsAre(plan);
  }

  /** A run goes through the stages in their one order, to the end exactly when none of its calls
      fails: no stage raises for a key that is missing. Where policies are used they are retrieved,
      where they are not retrieval is skipped, never both. */
  lemma RunFollowsStages(plan: Plan, leftmost: bool, path: seq<Stage>, finish: Outcome<World>)
    requires IsRun(plan, leftmost, path, finish)
    ensures path <= AllStages(plan.useRag)
    ensures finish.Done? <==> AllSucceed(plan.fails, 0, AllCalls(plan.useRag, plan.batches))
    ensures finish.Done? ==> path == AllStages(plan.useRag)
    ensures RetrievePolicies in path <==> plan.useRag && |path| > 5
    ensures SkipPolicyRetrieval in path <==> !plan.useRag && |path| > 5
    ensures BuildPrompt in path <==> |path| > 6
  {
    RunEnds(plan, leftmost, path, finish);
    StagesOnPath(plan.useRag, path);
  }

  lemma StagesOnPath(useRag: bool, path: seq<Stage>)
    requires path <= AllStages(useRag)
    ensures RetrievePolicies in path <==> useRag && |path| > 5
    ensures SkipPolicyRetrieval in path <==> !useRag && |path| > 5
    ensures BuildPrompt in path <==> |path| > 6
  {
    var all := AllStages(useRag);
    assert forall i :: 0 <= i < |path| ==> path[i] == all[i];
    if |path| > 5 {
      assert path[5] == all[5];
    }
    if |path| > 6 {
      assert path[6] == all[6];
    }
  }

  /** The keys that are there before place i of a path. */
  function KeysBefore(path: seq<Stage>, i: nat): set<Key>
    requires i <= |path|
  {
    if i == 0 then INPUT.keys else KeysBefore(path, i - 1) + Writes(path[i - 1])
  }

  /** Every key a stage reads has been written by the input or by an earlier stage. */
  lemma NoReadBeforeWrite(plan: Plan, leftmost: bool, path: seq<Stage>, finish: Outcome<World>, i: nat, key: Key)
    requires IsRun(plan, leftmost, path, finish)
    requires i < |path| && Read(key) in Actions(path[i], plan.batches)
    ensures key in KeysBefore(path, i)
  {
    RunFollowsStages(plan, leftmost, path, finish);
    ReadyAlong(plan.useRag, path, i);
    StageReads(path[i], plan.batches, KeysBefore(path, i));
  }

  lemma {:induction false} ReadyAlong(useRag: bool, path: seq<Stage>, i: nat)
    requires path <= AllStages(useRag) && i < |path|
    ensures path[i] != Start && path[i] != End && Ready(path[i], KeysBefore(path, i))
  {
    assert path[i] == AllStages(useRag)[i];
    if i > 0 {
      ReadyAlong(useRag, path, i - 1);
      assert path[i - 1] == AllStages(useRag)[i - 1];
      assert path[i] == Next(path[i - 1], useRag);
      ReadyNext(path[i - 1], useRag, KeysBefore(path, i - 1));
    }
  }

  lemma EdgesFall(n: Stage)
    requires n != SelectHarness && Edge(n) != End
    ensures 15 - Order(Edge(n)) < 15 - Order(n)
  {
  }

  lemma BranchesFall(plan: Plan, k: string)
    requires k in Branching(plan).targets
    ensures Order(Branching(plan).targets[k]) > Order(SelectHarness)
  {
    assert RETRIEVAL_TARGETS[k] == RetrievePolicies || RETRIEVAL_TARGETS[k] == SkipPolicyRetrieval;
  }

  lemma GraphFalls(plan: Plan)
    ensures Falls(ReviewGraph(plan), (s: Stage) => 15 - Order(s))
  {
    var g := ReviewGraph(plan);
    forall n, t | n in g.edges && t in g.edges[n] && t != End
      ensures 15 - Order(t) < 15 - Order(n)
    {
      assert g.edges[n] == [Edge(n)] && t == Edge(n);
      EdgesFall(n);
    }
    forall n, k | n in g.branches && k in g.branches[n].targets
      ensures 15 - Order(g.branches[n].targets[k]) < 15 - Order(n)
    {
      assert n == SelectHarness;
      BranchesFall(plan, k);
    }
  }

  lemma GraphIsSequential(plan: Plan)
    ensures Sequential(ReviewGraph(plan))
  {
  }

  /** The trace of the executor is the only path through the graph. */
  lemma OnlyPath(plan: Plan, path1: seq<Stage>, finish1: Outcome<World>, path2: seq<Stage>, finish2: Outcome<World>)
    requires IsRun(plan, true, path1, finish1) && IsRun(plan, false, path2, finish2)
    ensures path1 == path2 && finish1 == finish2
  {
    var g := ReviewGraph(plan);
    GraphIsSequential(plan);
    assert Start in EdgesUpTo(15);
    WalksAgree(g, true, false, Targets(g, g.start), INPUT, path1, finish1, path2, finish2);
  }

  // ---------------------------------------------------------------- what it publishes

  /** What run_review has published when it is over. */
  function Published(finish: Outcome<World>): seq<Kind> {
    finish.state.events + if finish.Raised? then [ReviewFailed] else []
  }

  /** Only the last event is terminal. */
  ghost predicate OnlyLastTerminal(events: seq<Kind>) {
    && events != [] && Terminal(events[|events| - 1])
    && forall i :: 0 <= i < |events| - 1 ==> !Terminal(events[i])
  }

  lemma LastTerminal(first: seq<Kind>, rest: seq<Kind>)
    requires forall k :: k in first ==> !Terminal(k)
    ensures OnlyLastTerminal(rest) ==>
              OnlyLastTerminal(first + rest) && (first + rest)[|first + rest| - 1] == rest[|rest| - 1]
  {
  }

  lemma AllEventsLength(useRag: bool, batches: nat)
    ensures |AllEvents(useRag, batches)| == (if useRag then 14 else 13) + 2 * batches
  {
    RepeatedIs(LlmBatchStarted, batches);
    RepeatedIs(LlmBatchCompleted, batches);
  }

  lemma AllEventsEnd(useRag: bool, batches: nat)
    ensures OnlyLastTerminal(AllEvents(useRag, batches))
    ensures AllEvents(useRag, batches)[|AllEvents(useRag, batches)| - 1] == ReviewCompleted
    ensures |AllEvents(useRag, batches)| == (if useRag then 14 else 13) + 2 * batches
  {
    AllEventsLength(useRag, batches);
    RepeatedIs(LlmBatchStarted, batches);
    RepeatedIs(LlmBatchCompleted, batches);
    var first := [ReviewCreated, FeaturesExtracted, RouteSelected, ComplexityAnalyzed, ReviewHarnessSelected];
    var retrieval := if useRag then [PolicyRetrievalStarted, PolicyRetrievalCompleted] else [PolicyRetrievalSkipped];
    var prompt := [PromptBuilt, LlmCallStarted];
    var started, completed := Repeated(LlmBatchStarted, batches), Repeated(LlmBatchCompleted, batches);
    var last := [LlmCallCompleted, FindingsValidated, ReviewPersisted, CommentPublished, ReviewCompleted];
    var e3 := completed + last;
    LastTerminal(completed, last);
    var e2 := started + e3;
    LastTerminal(started, e3);
    var e1 := prompt + e2;
    LastTerminal(prompt, e2);
    var e0 := retrieval + e1;
    LastTerminal(retrieval, e1);
    LastTerminal(first, e0);
    assert AllEvents(useRag, batches) == first + e0;
  }

  /** A review cut short. */
  lemma FailedEvents(told: seq<Kind>, all: seq<Kind>)
    ensures told <= all && |told| + 2 <= |all| && OnlyLastTerminal(all) ==>
              OnlyLastTerminal(told + [ReviewFailed]) && (told + [ReviewFailed])[..|told|] == told
                && |told + [ReviewFailed]| < |all|
  {
  }

  /** What a review has published: everything, or the beginning and that it failed. */
  ghost predicate PublishedAll(plan: Plan, events: seq<Kind>) {
    events == AllEvents(plan.useRag, plan.batches)
  }

  ghost predicate PublishedFailure(plan: Plan, events: seq<Kind>) {
    && events != [] && events[|events| - 1] == ReviewFailed
    && events[..|events| - 1] <= AllEvents(plan.useRag, plan.batches)
    && |events| < |AllEvents(plan.useRag, plan.batches)|
  }

  /** One terminal event, the last, and at most so many in all. */
  ghost predicate WellEnded(plan: Plan, events: seq<Kind>) {
    && OnlyLastTerminal(events)
    && |events| <= (if plan.useRag then 14 else 13) + 2 * plan.batches
  }

  lemma CompletionPublished(plan: Plan, finish: Outcome<World>)
    requires finish.Done?
    ensures PublishedAll(plan, finish.state.events) ==>
              PublishedAll(plan, Published(finish)) && WellEnded(plan, Published(finish))
  {
    AllEventsEnd(plan.useRag, plan.batches);
    assert finish.state.events + [] == finish.state.events;
  }

  lemma FailurePublished(plan: Plan, finish: Outcome<World>)
    requires finish.Raised?
    ensures finish.state.events <= AllEvents(plan.useRag, plan.batches)
            && |finish.state.events| + 2 <= |AllEvents(plan.useRag, plan.batches)| ==>
              PublishedFailure(plan, Published(finish)) && WellEnded(plan, Published(finish))
  {
    var all := AllEvents(plan.useRag, plan.batches);
    AllEventsEnd(plan.useRag, plan.batches);
    FailedEvents(finish.state.events, all);
  }

  /** Whichever call fails, and if none does, a review publishes exactly one terminal event, and
      publishes it last: that it is completed exactly when no call failed. */
  lemma TerminalDiscipline(plan: Plan, path: seq<Stage>, finish: Outcome<World>)
    requires IsRun(plan, true, path, finish)
    ensures WellEnded(plan, Published(finish))
    ensures AllSucceed(plan.fails, 0, AllCalls(plan.useRag, plan.batches)) ==> PublishedAll(plan, Published(finish))
    ensures !AllSucceed(plan.fails, 0, AllCalls(plan.useRag, plan.batches)) ==>
              PublishedFailure(plan, Published(finish))
  {
    RunEnds(plan, true, path, finish);
    EndsPublished(plan, AllEvents(plan.useRag, plan.batches), path, finish);
    if finish.Done? {
      CompletionPublished(plan, finish);
    } else {
      FailurePublished(plan, finish);
    }
  }

  lemma EndsPublished(plan: Plan, all: seq<Kind>, path: seq<Stage>, finish: Outcome<World>)
    ensures EndsAs(plan.fails, INPUT, AllStages(plan.useRag), all, AllCalls(plan.useRag, plan.batches), path,
            finish) ==>
              && (finish.Done? <==> AllSucceed(plan.fails, 0, AllCalls(plan.useRag, plan.batches)))
              && (finish.Done? ==> finish.state.events == all)
              && (finish.Raised? ==> finish.state.events <= all && |finish.state.events| + 2 <= |all|)
  {
  }

  // ---------------------------------------------------------------- running it

  /** ReviewWorkflowGraph.run: the result is taken out of the last state. */
  method RunGraph(plan: Plan) returns (finish: Outcome<World>, ghost path: seq<Stage>)
    ensures IsRun(plan, true, path, finish)
    ensures finish.Done? <==> AllSucceed(plan.fails, 0, AllCalls(plan.useRag, plan.batches))
  {
    GraphFalls(plan);
    var g := BuildGraph(plan);
    finish, path := Invoke(g, INPUT, (s: Stage) => 15 - Order(s));
    RunEnds(plan, true, path, finish);
    finish := if finish.Done? && Result !in finish.state.keys then Raised(finish.state) else finish;
    RunFollowsStages(plan, true, path, finish);
  }

  /** ReviewOrchestrator.run_review: a failure is published and raised again. */
  method RunReview(plan: Plan) returns (completed: bool, events: seq<Kind>)
    ensures completed <==> AllSucceed(plan.fails, 0, AllCalls(plan.useRag, plan.batches))
    ensures if completed then PublishedAll(plan, events) else PublishedFailure(plan, events)
    ensures WellEnded(plan, events)
  {
    ghost var path;
    var run: Outcome<World>;
    run, path := RunGraph(plan);
    TerminalDiscipline(plan, path, run);
    events := run.state.events;
    assert events + [] == events;
    if run.Raised? {
      events := events + [ReviewFailed];
    }
    completed := run.Done?;
  }
}
