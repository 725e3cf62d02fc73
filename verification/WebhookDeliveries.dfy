/** What a webhook delivery comes to: which commits its requests are for, and which keys it adds. */
module WebhookDeliveries {
  import opened Lists
  import opened Text
  import opened Webhook

  // ---------------------------------------------------------------- the requests of a plan

  /** The request is for this pull request at its head, in the repository of the payload. */
  predicate IsFor(payload: Payload, pr: PullRequest, r: ReviewRequest) {
    && r.provider == "github" && r.owner == payload.owner && r.name == payload.name
    && r.installationId == payload.installationId && r.number == pr.number && r.headSha == pr.headSha
  }

  /** The positive numbers among those of a check, in their order. */
  lemma {:induction false} PositiveAre(numbers: seq<int>)
    ensures forall n :: n in PositiveNumbers(numbers) <==> n in numbers && n > 0
    ensures (forall n :: n in numbers ==> n > 0) ==> PositiveNumbers(numbers) == numbers
  {
    WhereIn((n: int) => n > 0, numbers);
    if forall n :: n in numbers ==> n > 0 {
      WhereAll((n: int) => n > 0, numbers);
    }
  }

  /** Everything that a plan fetches from GitHub can be had. */
  predicate Reachable(api: Api, event: EventName, payload: Payload) {
    && payload.installationId != ""
    && if event == PullRequestEvent then api.details(payload.pullRequest)
       else forall n :: n in payload.check.pullNumbers && n > 0 ==>
              api.pullRequest(n).Some? && api.details(api.pullRequest(n).value)
  }

  /** The requests are for the pull request of the event, or, one for one, for those of its check. */
  ghost predicate RequestsFit(api: Api, event: EventName, payload: Payload, requests: seq<ReviewRequest>) {
    if event == PullRequestEvent then |requests| == 1 && IsFor(payload, payload.pullRequest, requests[0])
    else
      var numbers := PositiveNumbers(payload.check.pullNumbers);
      && |requests| == |numbers|
      && forall i :: 0 <= i < |numbers| ==>
           api.pullRequest(numbers[i]).Some? && IsFor(payload, api.pullRequest(numbers[i]).value, requests[i])
  }

  lemma CheckRequestsFit(api: Api, payload: Payload, mode: string, checkRunId: string)
    ensures var numbers := PositiveNumbers(payload.check.pullNumbers);
            var requests := RequestsFor(api, payload, mode, checkRunId, numbers);
            requests.Some? ==>
              && |requests.value| == |numbers|
              && forall i :: 0 <= i < |numbers| ==>
                   && api.pullRequest(numbers[i]).Some?
                   && IsFor(payload, api.pullRequest(numbers[i]).value, requests.value[i])
  {
    RequestsAre(api, payload, mode, checkRunId, PositiveNumbers(payload.check.pullNumbers));
  }

  /** Whatever is planned is for the commits at the heads of the pull requests that the event is about. */
  lemma PlannedAreFor(settings: Settings, api: Api, event: EventName, payload: Payload)
    ensures var plan := ReviewPlan(settings, api, event, payload);
            plan.Some? && plan.value.requests != [] ==> RequestsFit(api, event, payload, plan.value.requests)
  {
    CheckRequestsFit(api, payload, AUTO_MODE, "");
    CheckRequestsFit(api, payload, DEEP_MODE, payload.check.id);
  }

  lemma ReachableCheck(api: Api, event: EventName, payload: Payload, mode: string, checkRunId: string)
    requires event != PullRequestEvent && Reachable(api, event, payload)
    ensures RequestsFor(api, payload, mode, checkRunId, PositiveNumbers(payload.check.pullNumbers)).Some?
  {
    PositiveAre(payload.check.pullNumbers);
    ReachableRequests(api, payload, mode, checkRunId, PositiveNumbers(payload.check.pullNumbers));
  }

  /** What is reachable is reviewed if and only if the event starts reviews and is about some pull
      request; then all of its pull requests are. */
  lemma StartsExactly(settings: Settings, api: Api, event: EventName, payload: Payload)
    requires Reachable(api, event, payload)
    ensures ReviewPlan(settings, api, event, payload).Some?
    ensures var requests := ReviewPlan(settings, api, event, payload).value.requests;
            && (requests != [] <==>
                  && Starts(settings, event, payload)
                  && (event == PullRequestEvent || exists n :: n in payload.check.pullNumbers && n > 0))
            && (requests != [] ==> RequestsFit(api, event, payload, requests))
  {
    PlannedAreFor(settings, api, event, payload);
    if event == CheckSuite || event == CheckRun {
      ChecksStart(settings, api, event, payload);
    }
  }

  lemma ChecksStart(settings: Settings, api: Api, event: EventName, payload: Payload)
    requires Reachable(api, event, payload) && (event == CheckSuite || event == CheckRun)
    ensures ReviewPlan(settings, api, event, payload).Some?
    ensures ReviewPlan(settings, api, event, payload).value.requests != []
       <==> Starts(settings, event, payload) && exists n :: n in payload.check.pullNumbers && n > 0
  {
    SomePositive(payload.check.pullNumbers);
    if IsRequestedAction(event, payload) {
      SomeRequests(api, event, payload, DEEP_MODE, payload.check.id);
    } else {
      SomeRequests(api, event, payload, AUTO_MODE, "");
    }
  }

  lemma SomeRequests(api: Api, event: EventName, payload: Payload, mode: string, checkRunId: string)
    requires event != PullRequestEvent && Reachable(api, event, payload)
    ensures var numbers := PositiveNumbers(payload.check.pullNumbers);
            var requests := RequestsFor(api, payload, mode, checkRunId, numbers);
            requests.Some? && (requests.value == [] <==> numbers == [])
    ensures payload.check.pullNumbers == [] ==> PositiveNumbers(payload.check.pullNumbers) == []
  {
    ReachableCheck(api, event, payload, mode, checkRunId);
    CheckRequestsFit(api, payload, mode, checkRunId);
  }

  lemma SomePositive(numbers: seq<int>)
    ensures PositiveNumbers(numbers) != [] <==> exists n :: n in numbers && n > 0
  {
    PositiveAre(numbers);
    if PositiveNumbers(numbers) != [] {
      var n := PositiveNumbers(numbers)[0];
      assert n in PositiveNumbers(numbers) && n in numbers && n > 0;
    }
  }

  // ---------------------------------------------------------------- the keys that are added

  /** The i-th request is new, all before it could be marked as pending, it could too, and its review was
      stored. */
  ghost predicate AddsKey<K>(keys: seq<K>, existing: set<K>, attempts: nat -> Attempt, from: nat, i: int) {
    && from <= i < |keys| && keys[i] !in existing && attempts(i).stored
    && forall j :: from <= j <= i && keys[j] !in existing ==> !attempts(j).pendingRaises
  }

  /** Exactly these keys are added. */
  lemma {:induction false} StoredExactly<K>(
      keys: seq<K>, existing: set<K>, attempts: nat -> Attempt, from: nat, key: K)
    requires from <= |keys|
    ensures key in Stored(keys, existing, attempts, from)
       <==> exists i :: AddsKey(keys, existing, attempts, from, i) && keys[i] == key
    decreases |keys| - from
  {
    if from < |keys| {
      StoredUnrolled(keys, existing, attempts, from);
      StoredExactly(keys, existing, attempts, from + 1, key);
      if i :| AddsKey(keys, existing, attempts, from, i) && keys[i] == key && i > from {
        assert AddsKey(keys, existing, attempts, from + 1, i);
      }
      if i :| AddsKey(keys, existing, attempts, from + 1, i) && keys[i] == key {
        if keys[from] in existing || !attempts(from).pendingRaises {
          assert AddsKey(keys, existing, attempts, from, i);
        }
      }
      if key == keys[from] && keys[from] !in existing && !attempts(from).pendingRaises && attempts(from).stored {
        assert AddsKey(keys, existing, attempts, from, from);
      }
    }
  }

  /** When all are stored, the new keys are added in their order. */
  lemma {:induction false} NewKeysInOrder<K(!new)>(
      keys: seq<K>, existing: set<K>, attempts: nat -> Attempt, from: nat)
    requires from <= |keys| && AllStored(attempts)
    ensures Stored(keys, existing, attempts, from) == Where((k: K) => k !in existing, keys[from..])
    decreases |keys| - from
  {
    if from < |keys| {
      var isNew := (k: K) => k !in existing;
      StoredUnrolled(keys, existing, attempts, from);
      NewKeysInOrder(keys, existing, attempts, from + 1);
      assert keys[from..] == [keys[from]] + keys[from + 1..];
      WhereConcat(isNew, [keys[from]], keys[from + 1..]);
      assert [keys[from]][..0] == [];
    }
  }

  /** The i-th request of a delivery is new, its review is stored, and neither its own check run nor that of
      a new request before it has failed to be marked; without an installation there is none to mark. */
  ghost predicate ReviewsStored(d: Delivery, store: seq<string>, i: int) {
    var requests := Requests(d);
    && 0 <= i < |requests| && IdempotencyKey(requests[i]) !in store && d.attempts(i).stored
    && forall j :: 0 <= j <= i && IdempotencyKey(requests[j]) !in store && requests[j].installationId != "" ==>
         !d.attempts(j).pendingRaises
  }

  /** A delivery adds exactly the keys of such requests. */
  lemma DeliveryAddsExactly(d: Delivery, store: seq<string>, key: string)
    ensures store <= Handled(d, store)
    ensures key in Handled(d, store)
       <==> key in store || exists i :: ReviewsStored(d, store, i) && IdempotencyKey(Requests(d)[i]) == key
  {
    var requests := Requests(d);
    var keys, marked, existing := Keys(requests), Marked(requests, d.attempts), KeysOf(store);
    StoredExactly(keys, existing, marked, 0, key);
    forall i: int
      ensures AddsKey(keys, existing, marked, 0, i) <==> ReviewsStored(d, store, i)
    {
      AddsWhereStored(d, store, i);
    }
  }

  lemma AddsWhereStored(d: Delivery, store: seq<string>, i: int)
    ensures AddsKey(Keys(Requests(d)), KeysOf(store), Marked(Requests(d), d.attempts), 0, i)
       <==> ReviewsStored(d, store, i)
  {
    var requests := Requests(d);
    var keys, marked := Keys(requests), Marked(requests, d.attempts);
    forall j | 0 <= j < |requests|
      ensures keys[j] == IdempotencyKey(requests[j]) && marked(j).stored == d.attempts(j).stored
      ensures marked(j).pendingRaises <==> d.attempts(j).pendingRaises && requests[j].installationId != ""
    {
    }
  }

  /** The key of a commit of a pull request on GitHub, in a review that is not a deep one. */
  function CommitKey(owner: string, name: string, number: int, sha: string): string {
    "github:" + owner + "/" + name + ":" + Numeral(number) + ":" + sha
  }

  lemma KeyOfCommit(r: ReviewRequest)
    requires r.provider == "github" && r.reviewMode == "auto"
    ensures IdempotencyKey(r) == CommitKey(r.owner, r.name, r.number, r.headSha)
  {
    assert r.headSha + "" == r.headSha;
    assert "github" + (":" + (r.owner + ("/" + r.name) + (":" + (Numeral(r.number) + (":" + r.headSha)))))
        == "github:" + r.owner + "/" + r.name + ":" + Numeral(r.number) + ":" + r.headSha;
  }

  /** A push to a pull request, or its opening, that is reviewed and stored. */
  ghost predicate IsPush(d: Delivery) {
    && d.event == PullRequestEvent && Starts(d.settings, d.event, d.payload)
    && Reachable(d.api, d.event, d.payload) && d.attempts(0) == Attempt(false, true)
  }

  function PushKey(d: Delivery): string {
    CommitKey(d.payload.owner, d.payload.name, d.payload.pullRequest.number, d.payload.pullRequest.headSha)
  }

  lemma PushRequests(d: Delivery)
    requires IsPush(d)
    ensures Keys(Requests(d)) == [PushKey(d)]
  {
    StartsExactly(d.settings, d.api, d.event, d.payload);
    PlanFollowsRules(d.settings, d.api, d.event, d.payload);
    var r := Requests(d)[0];
    assert r in Requests(d);
    KeyOfCommit(r);
  }

  /** A push adds the key of its commit, unless that has been reviewed already. */
  lemma PushAddsItsCommit(d: Delivery, store: seq<string>)
    requires IsPush(d)
    ensures Handled(d, store) == if PushKey(d) in store then store else store + [PushKey(d)]
  {
    PushRequests(d);
    var keys, marked := Keys(Requests(d)), Marked(Requests(d), d.attempts);
    assert marked(0) == Attempt(false, true);
    StoredUnrolled(keys, KeysOf(store), marked, 0);
    assert Stored(keys, KeysOf(store), marked, 1) == [];
    assert store + [] == store;
  }

  lemma CommitsHaveTheirKeys(owner: string, name: string, number: int, a: string, b: string)
    ensures CommitKey(owner, name, number, a) == CommitKey(owner, name, number, b) <==> a == b
  {
    var prefix := "github:" + owner + "/" + name + ":" + Numeral(number) + ":";
    assert CommitKey(owner, name, number, a) == prefix + a && CommitKey(owner, name, number, b) == prefix + b;
    if prefix + a == prefix + b {
      assert (prefix + a)[|prefix|..] == a && (prefix + b)[|prefix|..] == b;
    }
  }

  /** After a push has been reviewed, the next push to the same pull request, with another commit, adds
      exactly its own key; with the same commit it adds nothing. */
  lemma NextPushIsReviewed(first: Delivery, next: Delivery, store: seq<string>)
    requires IsPush(first) && IsPush(next)
    requires first.payload.owner == next.payload.owner && first.payload.name == next.payload.name
    requires first.payload.pullRequest.number == next.payload.pullRequest.number
    requires PushKey(next) !in store
    ensures var after := Handled(first, store);
            Handled(next, after)
            == if next.payload.pullRequest.headSha == first.payload.pullRequest.headSha then after
               else after + [PushKey(next)]
  {
    PushAddsItsCommit(first, store);
    PushAddsItsCommit(next, Handled(first, store));
    CommitsHaveTheirKeys(next.payload.owner, next.payload.name, next.payload.pullRequest.number,
                         first.payload.pullRequest.headSha, next.payload.pullRequest.headSha);
  }
}
