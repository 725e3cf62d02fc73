/** What the parts guarantee together: a whole review as a client sees it. */
module System {
  import opened Text
  import opened Schemas
  import Events
  import opened GraphExecutor
  import PromptBuilder
  import opened ReviewGraph

  /** The default max_events_per_run of the event bus. */
  const MAX_EVENTS: nat := 200

  // ---------------------------------------------------------------- all events of a review

  /** All that is published for a review that a webhook starts: that it is queued, what the run
      publishes, and once more that it failed, if it did. */
  function WholeReview(finish: Outcome<World>): seq<Kind> {
    [ReviewQueued] + (Published(finish) + if finish.Raised? then [ReviewFailed] else [])
  }

  /** A review of these files by this route: it has as many batches as the prompt builder makes. */
  ghost predicate IsReviewOf(
    t: TextOps, files: seq<ChangedFile>, route: string, plan: Plan, path: seq<Stage>, finish: Outcome<World>)
  {
    && plan.batches == |PromptBuilder.Batches(t, files, route)|
    && IsRun(plan, true, path, finish)
  }

  lemma WholeReviewIsShort(plan: Plan, path: seq<Stage>, finish: Outcome<World>)
    requires IsRun(plan, true, path, finish)
    ensures |WholeReview(finish)| <= 15 + 2 * plan.batches
  {
    TerminalDiscipline(plan, path, finish);
    RunFollowsStages(plan, true, path, finish);
    AllEventsEnd(plan.useRag, plan.batches);
  }

  /** No review, however it ends, publishes so much that the bus forgets any of it. */
  lemma NoReviewOverflows(
    t: TextOps, files: seq<ChangedFile>, route: string, plan: Plan, path: seq<Stage>, finish: Outcome<World>)
    requires IsReviewOf(t, files, route, plan, path, finish)
    ensures |WholeReview(finish)| <= 15 + 2 * PromptBuilder.MaxBatches(route) <= 59 < MAX_EVENTS
  {
    WholeReviewIsShort(plan, path, finish);
    PromptBuilder.BatchesFit(t, files, route);
  }

  // ---------------------------------------------------------------- on the bus

  function Types(kinds: seq<Kind>): seq<string> {
    Each(EventType, kinds)
  }

  function Copies(name: string, n: nat): seq<string> {
    seq(n, i => name)
  }

  lemma {:induction false} TypesOfRepeated(kind: Kind, n: nat)
    ensures Types(Repeated(kind, n)) == Copies(EventType(kind), n)
  {
    if n > 0 {
      TypesOfRepeated(kind, n - 1);
      TypesConcat([kind], Repeated(kind, n - 1));
      assert Copies(EventType(kind), n) == [EventType(kind)] + Copies(EventType(kind), n - 1);
    }
  }

  lemma TypesConcat(a: seq<Kind>, b: seq<Kind>)
    ensures Types(a + b) == Types(a) + Types(b)
  {
  }

  lemma TypesOfTwo(a: Kind, b: Kind)
    ensures Types([a]) == [EventType(a)] && Types([a, b]) == [EventType(a), EventType(b)]
  {
    var one, two := Types([a]), Types([a, b]);
    assert one[0] == EventType(a) && two[0] == EventType(a) && two[1] == EventType(b);
  }

  lemma TypesOfFive(a: Kind, b: Kind, c: Kind, d: Kind, e: Kind)
    ensures Types([a, b, c, d, e]) == [EventType(a), EventType(b), EventType(c), EventType(d), EventType(e)]
  {
    var five := Types([a, b, c, d, e]);
    assert five[0] == EventType(a) && five[1] == EventType(b) && five[2] == EventType(c);
    assert five[3] == EventType(d) && five[4] == EventType(e);
  }

  lemma NamesAtTheStart()
    ensures Types([ReviewCreated, FeaturesExtracted, RouteSelected, ComplexityAnalyzed, ReviewHarnessSelected])
         == ["review_created", "features_extracted", "route_selected", "complexity_analyzed",
             "review_harness_selected"]
  {
    TypesOfFive(ReviewCreated, FeaturesExtracted, RouteSelected, ComplexityAnalyzed, ReviewHarnessSelected);
  }

  lemma NamesOfRetrieval(useRag: bool)
    ensures Types(if useRag then [PolicyRetrievalStarted, PolicyRetrievalCompleted] else [PolicyRetrievalSkipped])
         == if useRag then ["policy_retrieval_started", "policy_retrieval_completed"]
            else ["policy_retrieval_skipped"]
  {
    TypesOfTwo(PolicyRetrievalStarted, PolicyRetrievalCompleted);
    TypesOfTwo(PolicyRetrievalSkipped, PolicyRetrievalSkipped);
  }

  lemma NamesAtTheEnd()
    ensures Types([PromptBuilt, LlmCallStarted]) == ["prompt_built", "llm_call_started"]
    ensures Types([LlmCallCompleted, FindingsValidated, ReviewPersisted, CommentPublished, ReviewCompleted])
         == ["llm_call_completed", "findings_validated", "review_persisted", "comment_published", "review_completed"]
  {
    TypesOfTwo(PromptBuilt, LlmCallStarted);
    TypesOfFive(LlmCallCompleted, FindingsValidated, ReviewPersisted, CommentPublished, ReviewCompleted);
  }

  /** The names under which a client hears of an undisturbed review. */
  lemma NamesOfAllEvents(useRag: bool, batches: nat)
    ensures Types(AllEvents(useRag, batches))
         == ["review_created", "features_extracted", "route_selected", "complexity_analyzed",
             "review_harness_selected"]
          + ((if useRag then ["policy_retrieval_started", "policy_retrieval_completed"]
              else ["policy_retrieval_skipped"])
          + (["prompt_built", "llm_call_started"]
          + (Copies("llm_batch_started", batches) + (Copies("llm_batch_completed", batches)
          + ["llm_call_completed", "findings_validated", "review_persisted", "comment_published",
             "review_completed"]))))
  {
    var started, completed := Repeated(LlmBatchStarted, batches), Repeated(LlmBatchCompleted, batches);
    var last := [LlmCallCompleted, FindingsValidated, ReviewPersisted, CommentPublished, ReviewCompleted];
    var middle := if useRag then [PolicyRetrievalStarted, PolicyRetrievalCompleted] else [PolicyRetrievalSkipped];
    TypesOfRepeated(LlmBatchStarted, batches);
    TypesOfRepeated(LlmBatchCompleted, batches);
    NamesAtTheStart();
    NamesOfRetrieval(useRag);
    NamesAtTheEnd();
    TypesConcat(completed, last);
    TypesConcat(started, completed + last);
    TypesConcat([PromptBuilt, LlmCallStarted], started + (completed + last));
    TypesConcat(middle, [PromptBuilt, LlmCallStarted] + (started + (completed + last)));
    TypesConcat([ReviewCreated, FeaturesExtracted, RouteSelected, ComplexityAnalyzed, ReviewHarnessSelected],
                middle + ([PromptBuilt, LlmCallStarted] + (started + (completed + last))));
  }

  function TypesOf(events: seq<Events.Event>): seq<string> {
    Each((e: Events.Event) => e.eventType, events)
  }

  /** The types that the steps publish, in order. */
  function PublishedTypes(steps: seq<Events.Step>): seq<string> {
    if steps == [] then []
    else (if steps[0].Publish? then [steps[0].eventType] else []) + PublishedTypes(steps[1..])
  }

  lemma OneMoreType(s: Events.Session, step: Events.Step)
    ensures TypesOf(Events.Apply(s, step).history)
         == TypesOf(s.history) + (if step.Publish? then [step.eventType] else [])
  {
    if step.Publish? {
      assert TypesOf(Events.Apply(s, step).history) == TypesOf(s.history) + [step.eventType];
    } else {
      assert TypesOf(s.history) + [] == TypesOf(s.history);
    }
  }

  lemma OpenPublished(steps: seq<Events.Step>, own: seq<string>, later: seq<string>)
    requires steps != [] && own == (if steps[0].Publish? then [steps[0].eventType] else [])
    requires later == PublishedTypes(steps[1..])
    ensures PublishedTypes(steps) == own + later
  {
  }

  lemma Onto<T>(a: seq<T>, b: seq<T>, c: seq<T>)
    ensures (a + b) + c == a + (b + c)
  {
  }

  lemma {:induction false} HistoryTypes(s: Events.Session, steps: seq<Events.Step>)
    ensures TypesOf(Events.Run(s, steps).history) == TypesOf(s.history) + PublishedTypes(steps)
    ensures Events.Publishes(steps) == |PublishedTypes(steps)|
    decreases steps
  {
    if steps == [] {
      assert TypesOf(s.history) + [] == TypesOf(s.history);
    } else {
      var own := if steps[0].Publish? then [steps[0].eventType] else [];
      HistoryTypes(Events.Apply(s, steps[0]), steps[1..]);
      OneMoreType(s, steps[0]);
      OpenPublished(steps, own, PublishedTypes(steps[1..]));
      Onto(TypesOf(s.history), own, PublishedTypes(steps[1..]));
    }
  }

  lemma {:induction false} FirstTerminalAt(events: seq<Events.Event>, k: nat)
    requires k < |events| && Events.IsTerminal(events[k].eventType)
    requires forall i :: 0 <= i < k ==> !Events.IsTerminal(events[i].eventType)
    ensures Events.UpToTerminal(events) == events[..k + 1]
  {
    if k > 0 {
      FirstTerminalAt(events[1..], k - 1);
      assert events[..k + 1] == [events[0]] + events[1..][..k];
    } else {
      assert events[..1] == [events[0]];
    }
  }

  /** The last event that the run itself publishes is the first terminal one. */
  lemma FirstTerminal(plan: Plan, path: seq<Stage>, finish: Outcome<World>, k: nat)
    requires IsRun(plan, true, path, finish) && k < |WholeReview(finish)|
    ensures k < |Published(finish)| ==> !Terminal(WholeReview(finish)[k])
    ensures k == |Published(finish)| ==> Terminal(WholeReview(finish)[k])
  {
    TerminalDiscipline(plan, path, finish);
    var told := Published(finish);
    if 0 < k <= |told| {
      assert WholeReview(finish)[k] == told[k - 1];
    }
  }

  lemma HistoryKinds(history: seq<Events.Event>, kinds: seq<Kind>)
    requires TypesOf(history) == Types(kinds)
    ensures |history| == |kinds|
    ensures forall k :: 0 <= k < |kinds| ==> (Events.IsTerminal(history[k].eventType) <==> Terminal(kinds[k]))
  {
    assert |TypesOf(history)| == |Types(kinds)|;
    forall k | 0 <= k < |kinds|
      ensures Events.IsTerminal(history[k].eventType) <==> Terminal(kinds[k])
    {
      assert TypesOf(history)[k] == Types(kinds)[k];
      TerminalKinds(kinds[k]);
    }
  }

  /** However the events of a review that a webhook starts interleave with the polls, deliveries and
      reconnections of a client: the bus numbers them 1, 2, 3, ... and keeps them all, and the client
      that polls on gets every event up to the end of the run exactly once, in order, with what was
      published in it, and nothing of what the webhook handler may add after it. */
  lemma ClientSeesTheRun(
    t: TextOps, files: seq<ChangedFile>, route: string, plan: Plan, path: seq<Stage>, finish: Outcome<World>,
    run: string, steps: seq<Events.Step>)
    requires IsReviewOf(t, files, route, plan, path, finish)
    requires PublishedTypes(steps) == Types(WholeReview(finish))
    requires forall step :: step in steps ==> !step.Revisit?
    ensures var s := Events.Run(Events.Start(MAX_EVENTS, run), steps);
            var received := Events.Drained(Events.Polled(Events.Drained(s.sub), s.log)).received;
            && (forall k :: 0 <= k < |s.history| ==> s.history[k].sequence == k + 1)
            && s.log == s.history
            && TypesOf(received) == Types([ReviewQueued] + Published(finish))
            && |received| <= |Events.Told(steps)|
            && Events.Carries(received, 0, run, MAX_EVENTS, Events.Told(steps)[..|received|])
  {
    var start := Events.Start(MAX_EVENTS, run);
    var s := Events.Run(start, steps);
    NoReviewOverflows(t, files, route, plan, path, finish);
    HistoryTypes(start, steps);
    assert TypesOf(s.history) == Types(WholeReview(finish));
    Events.DeliveredInOrder(MAX_EVENTS, run, steps);
    Events.ExactlyOnce(MAX_EVENTS, run, steps);
    Events.RunKeepsLaw(start, steps);
    Events.RunCounts(start, steps);
    Events.HistoryIsTold(MAX_EVENTS, run, steps);
    Events.UpToTerminalIsFirst(s.history);
    ReceivedTypes(plan, path, finish, s.history);
  }

  lemma FrontTypes(history: seq<Events.Event>, kinds: seq<Kind>, n: nat)
    requires n <= |kinds| && TypesOf(history) == Types(kinds)
    ensures TypesOf(history[..n]) == Types(kinds[..n])
  {
    assert TypesOf(history)[..n] == Types(kinds)[..n];
    assert TypesOf(history[..n]) == TypesOf(history)[..n];
    assert Types(kinds[..n]) == Types(kinds)[..n];
  }

  lemma ReceivedTypes(plan: Plan, path: seq<Stage>, finish: Outcome<World>, history: seq<Events.Event>)
    requires IsRun(plan, true, path, finish) && TypesOf(history) == Types(WholeReview(finish))
    ensures TypesOf(Events.UpToTerminal(history)) == Types([ReviewQueued] + Published(finish))
  {
    var kinds, n := WholeReview(finish), |Published(finish)|;
    HistoryKinds(history, kinds);
    FirstTerminal(plan, path, finish, n);
    forall i | 0 <= i < n
      ensures !Events.IsTerminal(history[i].eventType)
    {
      FirstTerminal(plan, path, finish, i);
    }
    FirstTerminalAt(history, n);
    assert kinds[..n + 1] == [ReviewQueued] + Published(finish);
    FrontTypes(history, kinds, n + 1);
  }
}
