/** github_app.py and main.py: what a GitHub webhook delivery makes the service review, and how reviews
    are kept from being done twice. */
module Webhook {
  import opened Text
  import opened Lists

  const DEEP_REVIEW_ACTION_IDENTIFIER := "run_deep_review"
  const DEEP_MODE := "deep_quality_review"
  const AUTO_MODE := "auto"

  /** The settings that decide what is reviewed; no App ID is "". */
  datatype Settings = Settings(reviewMode: string, appId: string, checkRunName: string)

  datatype PullRequest = PullRequest(number: int, headSha: string, draft: bool)

  /** A check suite or check run, with the numbers of its pull requests. */
  datatype Check = Check(id: string, name: string, appId: string, pullNumbers: seq<int>)

  datatype Payload = Payload(
    action: string, identifier: string, owner: string, name: string, installationId: string,
    pullRequest: PullRequest, check: Check)

  datatype EventName = Ping | PullRequestEvent | CheckSuite | CheckRun | OtherEvent

  datatype ReviewRequest = ReviewRequest(
    provider: string, owner: string, name: string, number: int, headSha: string, reviewMode: string,
    installationId: string, checkRunId: string)

  datatype Status = Ready | Accepted | Ignored

  datatype Plan = Plan(status: Status, requests: seq<ReviewRequest>)

  /** The GitHub API as far as a plan needs it: None where a call raises. `details` is all that is
      fetched to build the request. */
  datatype Api = Api(pullRequest: int -> Option<PullRequest>, details: PullRequest -> bool)

  // ---------------------------------------------------------------- the key

  /** ReviewRequest.idempotency_key */
  function IdempotencyKey(r: ReviewRequest): string {
    r.provider + (":" + (FullName(r) + (":" + (Numeral(r.number) + (":" + (r.headSha + ModeSuffix(r)))))))
  }

  function FullName(r: ReviewRequest): string {
    r.owner + ("/" + r.name)
  }

  function ModeSuffix(r: ReviewRequest): string {
    if r.reviewMode != AUTO_MODE then ":" + r.reviewMode else ""
  }

  lemma SplitAt(c: char, a: string, rest: string, b: string, other: string)
    requires c !in a && c !in b && a + ([c] + rest) == b + ([c] + other)
    ensures a == b && rest == other
  {
    var s := a + ([c] + rest);
    assert s[|a|] == c && s[|b|] == c;
    assert |a| == |b|;
    assert s[..|a|] == a && s[..|b|] == b;
    assert s[|a| + 1..] == rest && s[|b| + 1..] == other;
  }

  lemma NotShorter(a: string, suffix: string, b: string, s: string)
    requires ':' !in b && b <= s && s == a + suffix && (suffix == "" || suffix[0] == ':')
    ensures |a| >= |b|
  {
    assert forall k :: 0 <= k < |b| ==> s[k] == b[k] && s[k] != ':';
    assert suffix != "" ==> s[|a|] == suffix[0];
  }

  lemma EndOrColon(a: string, suffix: string, b: string, other: string)
    requires ':' !in a && ':' !in b && a + suffix == b + other
    requires suffix == "" || suffix[0] == ':'
    requires other == "" || other[0] == ':'
    ensures a == b && suffix == other
  {
    var s := a + suffix;
    assert s[..|a|] == a && s[|a|..] == suffix && s[..|b|] == b && s[|b|..] == other;
    NotShorter(a, suffix, b, s);
    NotShorter(b, other, a, s);
  }

  lemma NumeralHasNoColon(n: int)
    ensures ':' !in Numeral(n)
  {
    DecimalDigits(if n < 0 then -n else n);
  }

  /** No part of the key holds the character that ends it. */
  predicate PlainNames(r: ReviewRequest) {
    ':' !in r.provider && ':' !in r.owner && ':' !in r.name && ':' !in r.headSha && '/' !in r.owner
  }

  /** Requests for the same commit of the same pull request in the same mode. */
  predicate SameReview(a: ReviewRequest, b: ReviewRequest) {
    && a.provider == b.provider && a.owner == b.owner && a.name == b.name
    && a.number == b.number && a.headSha == b.headSha && a.reviewMode == b.reviewMode
  }

  /** For plain names, keys are equal exactly for requests of the same review. */
  lemma KeyIdentifies(a: ReviewRequest, b: ReviewRequest)
    requires PlainNames(a) && PlainNames(b)
    ensures IdempotencyKey(a) == IdempotencyKey(b) <==> SameReview(a, b)
  {
    if IdempotencyKey(a) == IdempotencyKey(b) {
      KeyInjective(a, b);
    }
  }

  lemma KeyInjective(a: ReviewRequest, b: ReviewRequest)
    requires PlainNames(a) && PlainNames(b) && IdempotencyKey(a) == IdempotencyKey(b)
    ensures SameReview(a, b)
  {
    var lastA, lastB := a.headSha + ModeSuffix(a), b.headSha + ModeSuffix(b);
    var numberA, numberB := Numeral(a.number) + (":" + lastA), Numeral(b.number) + (":" + lastB);
    var nameA, nameB := FullName(a) + (":" + numberA), FullName(b) + (":" + numberB);
    SplitAt(':', a.provider, nameA, b.provider, nameB);
    SplitAt(':', FullName(a), numberA, FullName(b), numberB);
    NumeralHasNoColon(a.number);
    NumeralHasNoColon(b.number);
    SplitAt(':', Numeral(a.number), lastA, Numeral(b.number), lastB);
    NumeralInjective(a.number, b.number);
    EndOrColon(a.headSha, ModeSuffix(a), b.headSha, ModeSuffix(b));
    SplitAt('/', a.owner, a.name, b.owner, b.name);
    SameMode(a, b);
  }

  lemma SameMode(a: ReviewRequest, b: ReviewRequest)
    requires ModeSuffix(a) == ModeSuffix(b)
    ensures a.reviewMode == b.reviewMode
  {
    if a.reviewMode != AUTO_MODE {
      assert ModeSuffix(a)[1..] == a.reviewMode;
    }
    if b.reviewMode != AUTO_MODE {
      assert ModeSuffix(b)[1..] == b.reviewMode;
    }
  }

  lemma Split(c: char, s: string) returns (before: string, after: string)
    requires c in s
    ensures s == before + ([c] + after)
  {
    var i :| 0 <= i < |s| && s[i] == c;
    before, after := s[..i], s[i + 1..];
  }

  /** Without that no key is safe: a request whose provider or owner holds a separator shares its key
      with a request of another review. */
  lemma SeparatorsClash(r: ReviewRequest) returns (other: ReviewRequest)
    requires ':' in r.provider || ':' in r.owner || '/' in r.owner
    ensures IdempotencyKey(other) == IdempotencyKey(r) && !SameReview(other, r)
  {
    if '/' in r.owner {
      var x, y := Split('/', r.owner);
      other := r.(owner := x, name := y + ("/" + r.name));
      assert FullName(r) == x + ("/" + (y + ("/" + r.name)));
    } else if ':' in r.owner {
      var x, y := Split(':', r.owner);
      other := r.(provider := r.provider + (":" + x), owner := y);
      KeyRegrouped(r.provider, x, y + ("/" + r.name), FullName(r), AfterName(r));
    } else {
      var x, y := Split(':', r.provider);
      other := r.(provider := x, owner := y + (":" + r.owner));
      assert FullName(other) == y + (":" + FullName(r));
      KeyRegrouped(x, y, FullName(r), FullName(other), AfterName(r));
    }
  }

  function AfterName(r: ReviewRequest): string {
    ":" + (Numeral(r.number) + (":" + (r.headSha + ModeSuffix(r))))
  }

  lemma KeyRegrouped(p: string, x: string, y: string, joined: string, rest: string)
    requires joined == x + (":" + y)
    ensures p + (":" + (joined + rest)) == (p + (":" + x)) + (":" + (y + rest))
  {
  }

  /** The same up to the commit: no separator in the provider, the owner and the name. */
  predicate PlainRepository(r: ReviewRequest) {
    ':' !in r.provider && ':' !in r.owner && ':' !in r.name && '/' !in r.owner
  }

  function LastPart(r: ReviewRequest): string {
    r.headSha + ModeSuffix(r)
  }

  /** For plain repositories, equal keys mean the same pull request and the same last part. */
  lemma LastPartsDecide(a: ReviewRequest, b: ReviewRequest)
    requires PlainRepository(a) && PlainRepository(b)
    ensures IdempotencyKey(a) == IdempotencyKey(b)
       <==> && a.provider == b.provider && a.owner == b.owner && a.name == b.name
            && a.number == b.number && LastPart(a) == LastPart(b)
  {
    if IdempotencyKey(a) == IdempotencyKey(b) {
      var numberA, numberB := Numeral(a.number) + (":" + LastPart(a)), Numeral(b.number) + (":" + LastPart(b));
      SplitAt(':', a.provider, FullName(a) + (":" + numberA), b.provider, FullName(b) + (":" + numberB));
      SplitAt(':', FullName(a), numberA, FullName(b), numberB);
      SplitAt('/', a.owner, a.name, b.owner, b.name);
      NumeralHasNoColon(a.number);
      NumeralHasNoColon(b.number);
      SplitAt(':', Numeral(a.number), LastPart(a), Numeral(b.number), LastPart(b));
      NumeralInjective(a.number, b.number);
    }
  }

  ghost predicate ClashesWith(r: ReviewRequest, other: ReviewRequest) {
    PlainRepository(other) && IdempotencyKey(other) == IdempotencyKey(r) && !SameReview(other, r)
  }

  /** The commit reads as a commit and a mode that is not "auto". */
  ghost predicate ReadsAsMode(headSha: string) {
    exists x, y :: headSha == x + (":" + y) && y != AUTO_MODE
  }

  /** What a colon in the commit can do: some commit and mode share the key of a request if and only if
      its own mode is written into the key, or its commit reads as a commit and another mode. */
  lemma CommitsClash(r: ReviewRequest)
    requires PlainRepository(r)
    ensures (exists other :: ClashesWith(r, other)) <==> r.reviewMode != AUTO_MODE || ReadsAsMode(r.headSha)
  {
    if other :| ClashesWith(r, other) {
      LastPartsDecide(other, r);
      if r.reviewMode == AUTO_MODE {
        assert r.headSha + "" == r.headSha && other.headSha + "" == other.headSha;
        assert other.reviewMode != AUTO_MODE;
        assert r.headSha == other.headSha + (":" + other.reviewMode);
      }
    }
    if r.reviewMode != AUTO_MODE {
      var other := r.(headSha := r.headSha + (":" + r.reviewMode), reviewMode := AUTO_MODE);
      assert LastPart(other) == LastPart(r);
      LastPartsDecide(other, r);
      assert ClashesWith(r, other);
    } else if ReadsAsMode(r.headSha) {
      var x, y :| r.headSha == x + (":" + y) && y != AUTO_MODE;
      var other := r.(headSha := x, reviewMode := y);
      assert LastPart(other) == LastPart(r);
      LastPartsDecide(other, r);
      assert ClashesWith(r, other);
    }
  }

  /** No separator in the provider and the owner; the name may be anything. */
  predicate PlainOwner(r: ReviewRequest) {
    ':' !in r.provider && ':' !in r.owner && '/' !in r.owner
  }

  /** The key from the name on. */
  function NameTail(r: ReviewRequest): string {
    r.name + (":" + (Numeral(r.number) + (":" + LastPart(r))))
  }

  lemma TailsDecide(a: ReviewRequest, b: ReviewRequest)
    requires PlainOwner(a) && PlainOwner(b)
    ensures IdempotencyKey(a) == IdempotencyKey(b)
       <==> a.provider == b.provider && a.owner == b.owner && NameTail(a) == NameTail(b)
  {
    KeyOfTail(a);
    KeyOfTail(b);
    if IdempotencyKey(a) == IdempotencyKey(b) {
      SplitAt(':', a.provider, a.owner + ("/" + NameTail(a)), b.provider, b.owner + ("/" + NameTail(b)));
      SplitAt('/', a.owner, NameTail(a), b.owner, NameTail(b));
    }
  }

  lemma KeyOfTail(r: ReviewRequest)
    ensures IdempotencyKey(r) == r.provider + (":" + (r.owner + ("/" + NameTail(r))))
  {
    var rest := ":" + (Numeral(r.number) + (":" + LastPart(r)));
    assert FullName(r) + rest == r.owner + ("/" + (r.name + rest));
  }

  /** The name is x, a colon, the numeral of m, and y, which is empty or goes on with a colon. */
  predicate NameSplits(name: string, x: string, m: int, y: string) {
    name == x + (":" + (Numeral(m) + y)) && (y == "" || y[0] == ':')
  }

  /** After some colon the name has a whole number up to the next colon or its end. */
  ghost predicate HoldsNumber(name: string) {
    exists x, m, y :: NameSplits(name, x, m, y)
  }

  ghost predicate NameClashesWith(r: ReviewRequest, other: ReviewRequest) {
    PlainOwner(other) && IdempotencyKey(other) == IdempotencyKey(r) && !SameReview(other, r)
  }

  lemma NumberMoves(x: string, numeral: string, y: string, rest: string, sha: string)
    requires y == "" || y[0] == ':'
    requires sha == if y == "" then rest else y[1..] + (":" + rest)
    ensures (x + (":" + (numeral + y))) + (":" + rest) == x + (":" + (numeral + (":" + sha)))
  {
    assert y != "" ==> y == ":" + y[1..];
    assert y + (":" + rest) == ":" + sha;
    assert (x + (":" + (numeral + y))) + (":" + rest) == x + (":" + (numeral + (y + (":" + rest))));
  }

  /** The request that a number in the name makes: the rest of the name becomes part of the commit. */
  lemma NumberClashes(r: ReviewRequest, x: string, m: int, y: string) returns (other: ReviewRequest)
    requires PlainOwner(r) && r.reviewMode == AUTO_MODE && NameSplits(r.name, x, m, y)
    ensures NameClashesWith(r, other)
  {
    var rest := Numeral(r.number) + (":" + LastPart(r));
    other := r.(name := x, number := m, headSha := if y == "" then rest else y[1..] + (":" + rest));
    assert LastPart(other) == other.headSha;
    NumberMoves(x, Numeral(m), y, rest, other.headSha);
    TailsDecide(other, r);
    assert |x| < |r.name|;
  }

  /** Two ways to read n ":" number ":" sha, where the number and the sha hold no colon. */
  lemma ReadsTwice(name: string, number: int, sha: string, other: string, m: int, last: string)
    requires name + (":" + (Numeral(number) + (":" + sha))) == other + (":" + (Numeral(m) + (":" + last)))
    requires ':' !in sha
    ensures (other == name && m == number && last == sha) || (exists y :: NameSplits(name, other, m, y))
  {
    var s := name + (":" + (Numeral(number) + (":" + sha)));
    NumeralHasNoColon(number);
    NumeralHasNoColon(m);
    assert s[|other|] == ':' && s[|other| + 1 + |Numeral(m)|] == ':';
    assert s[..|name|] == name && s[..|other|] == other;
    if |other| >= |name| {
      NoLaterColons(name, number, sha, |other|, |other| + 1 + |Numeral(m)|);
      assert s[|name| + 1..] == Numeral(number) + (":" + sha) && s[|other| + 1..] == Numeral(m) + (":" + last);
      SplitAt(':', Numeral(number), sha, Numeral(m), last);
      NumeralInjective(number, m);
    } else {
      var y := NumberEndsInName(name, Numeral(number) + (":" + sha), other, Numeral(m), last);
      assert NameSplits(name, other, m, y);
    }
  }

  lemma NoLaterColons(name: string, number: int, sha: string, i: nat, j: nat)
    requires ':' !in Numeral(number) && ':' !in sha && |name| <= i < j
    requires var s := name + (":" + (Numeral(number) + (":" + sha)));
             j < |s| && s[i] == ':' && s[j] == ':'
    ensures i == |name|
  {
    var s := name + (":" + (Numeral(number) + (":" + sha)));
    assert forall k :: |name| < k < |s| && s[k] == ':' ==> k == |name| + 1 + |Numeral(number)|;
  }

  lemma NumberEndsInName(name: string, rest: string, other: string, numeral: string, last: string) returns (y: string)
    requires ':' !in numeral && |other| < |name|
    requires name + (":" + rest) == other + (":" + (numeral + (":" + last)))
    ensures name == other + (":" + (numeral + y)) && (y == "" || y[0] == ':')
  {
    var s, n := name + (":" + rest), |other| + 1 + |numeral|;
    assert s[|name|] == ':' && s[n] == ':';
    assert forall k :: |other| < k < n ==> s[k] == numeral[k - |other| - 1] && s[k] != ':';
    assert n <= |name|;
    y := name[n..];
    assert name == s[..|name|] && s[..n] == other + (":" + numeral);
    assert name == s[..n] + y;
  }

  lemma SameLastPart(a: ReviewRequest, b: ReviewRequest)
    requires ':' !in b.headSha && b.reviewMode == AUTO_MODE
    ensures LastPart(a) == LastPart(b) ==> a.headSha == b.headSha && a.reviewMode == b.reviewMode
  {
    assert LastPart(b) == b.headSha;
    if a.reviewMode != AUTO_MODE {
      assert LastPart(a)[|a.headSha|] == ':';
    } else {
      assert LastPart(a) == a.headSha;
    }
  }

  lemma OnlyNumbersClash(r: ReviewRequest, other: ReviewRequest)
    requires PlainOwner(r) && ':' !in r.headSha && r.reviewMode == AUTO_MODE && NameClashesWith(r, other)
    ensures HoldsNumber(r.name)
  {
    TailsDecide(other, r);
    SameLastPart(other, r);
    assert LastPart(r) == r.headSha;
    ReadsTwice(r.name, r.number, r.headSha, other.name, other.number, LastPart(other));
  }

  /** What a colon in the name can do: where the commit holds none, another request shares the key if and
      only if the mode is written into it, or the name holds a number after a colon. */
  lemma NamesClash(r: ReviewRequest)
    requires PlainOwner(r) && ':' !in r.headSha
    ensures (exists other :: NameClashesWith(r, other)) <==> r.reviewMode != AUTO_MODE || HoldsNumber(r.name)
  {
    if r.reviewMode != AUTO_MODE {
      var other := r.(headSha := r.headSha + (":" + r.reviewMode), reviewMode := AUTO_MODE);
      assert LastPart(other) == LastPart(r);
      TailsDecide(other, r);
      assert NameClashesWith(r, other);
    } else if x, m, y :| NameSplits(r.name, x, m, y) {
      var other := NumberClashes(r, x, m, y);
    }
    if r.reviewMode == AUTO_MODE {
      forall other | NameClashesWith(r, other)
        ensures HoldsNumber(r.name)
      {
        OnlyNumbersClash(r, other);
      }
    }
  }

  lemma SplitAtLast(c: char, a: string, rest: string, b: string, other: string)
    requires c !in rest && c !in other && a + ([c] + rest) == b + ([c] + other)
    ensures a == b && rest == other
  {
    var s := a + ([c] + rest);
    assert s[|a|] == c && s[|b|] == c;
    assert |a| == |b|;
    assert s[..|a|] == a && s[..|b|] == b && s[|a| + 1..] == rest && s[|b| + 1..] == other;
  }

  /** The modes there are, and a commit that is not written like one. */
  predicate UsualReview(r: ReviewRequest) {
    PlainOwner(r) && ':' !in r.headSha && r.headSha != DEEP_MODE && r.reviewMode in {AUTO_MODE, DEEP_MODE}
  }

  lemma RegroupParts(x: string, y: string, z: string)
    ensures x + (":" + (y + (":" + z))) == (x + (":" + y)) + (":" + z)
  {
  }

  lemma TailOf(r: ReviewRequest)
    requires UsualReview(r)
    ensures var named := r.name + (":" + Numeral(r.number));
            NameTail(r) == if r.reviewMode == AUTO_MODE then named + (":" + r.headSha)
                           else (named + (":" + r.headSha)) + (":" + DEEP_MODE)
  {
    var named := r.name + (":" + Numeral(r.number));
    RegroupParts(r.name, Numeral(r.number), LastPart(r));
    RegroupParts(named, r.headSha, DEEP_MODE);
    assert LastPart(r) == if r.reviewMode == AUTO_MODE then r.headSha else r.headSha + (":" + DEEP_MODE);
  }

  /** With the modes there are, keys are equal exactly for requests of the same review, whatever the
      repository's name. */
  lemma KeyIdentifiesAnyName(a: ReviewRequest, b: ReviewRequest)
    requires UsualReview(a) && UsualReview(b)
    ensures IdempotencyKey(a) == IdempotencyKey(b) <==> SameReview(a, b)
  {
    TailsDecide(a, b);
    if IdempotencyKey(a) == IdempotencyKey(b) {
      TailOf(a);
      TailOf(b);
      var namedA, namedB := a.name + (":" + Numeral(a.number)), b.name + (":" + Numeral(b.number));
      assert ':' !in DEEP_MODE;
      if a.reviewMode == DEEP_MODE && b.reviewMode == DEEP_MODE {
        SplitAtLast(':', namedA + (":" + a.headSha), DEEP_MODE, namedB + (":" + b.headSha), DEEP_MODE);
      } else if a.reviewMode == DEEP_MODE {
        SplitAtLast(':', namedA + (":" + a.headSha), DEEP_MODE, namedB, b.headSha);
      } else if b.reviewMode == DEEP_MODE {
        SplitAtLast(':', namedA, a.headSha, namedB + (":" + b.headSha), DEEP_MODE);
      }
      SplitAtLast(':', namedA, a.headSha, namedB, b.headSha);
      NumeralHasNoColon(a.number);
      NumeralHasNoColon(b.number);
      SplitAtLast(':', a.name, Numeral(a.number), b.name, Numeral(b.number));
      NumeralInjective(a.number, b.number);
    }
  }

  // ---------------------------------------------------------------- what is to be reviewed

  /** _build_review_request; None where an API call raises. */
  function BuildRequest(
      api: Api, payload: Payload, pr: PullRequest, mode: string, checkRunId: string): Option<ReviewRequest> {
    if payload.installationId == "" || !api.details(pr) then None
    else Some(ReviewRequest("github", payload.owner, payload.name, pr.number, pr.headSha, mode, payload.installationId,
                            checkRunId))
  }

  /** The request for a pull request given by its number. */
  function RequestFor(
      api: Api, payload: Payload, mode: string, checkRunId: string, number: int): Option<ReviewRequest> {
    var pr := api.pullRequest(number);
    if payload.installationId == "" || pr.None? then None else BuildRequest(api, payload, pr.value, mode, checkRunId)
  }

  function PositiveNumbers(numbers: seq<int>): seq<int> {
    Where((n: int) => n > 0, numbers)
  }

  /** The requests for the numbers in order; None where one of them raises. */
  function RequestsFor(api: Api, payload: Payload, mode: string, checkRunId: string, numbers: seq<int>)
    : Option<seq<ReviewRequest>>
  {
    if numbers == [] then Some([])
    else
      var before := RequestsFor(api, payload, mode, checkRunId, numbers[..|numbers| - 1]);
      var last := RequestFor(api, payload, mode, checkRunId, numbers[|numbers| - 1]);
      if before.None? || last.None? then None else Some(before.value + [last.value])
  }

  /** The loop over the pull requests of a check. */
  method CollectRequests(api: Api, payload: Payload, mode: string, checkRunId: string, numbers: seq<int>)
    returns (requests: Option<seq<ReviewRequest>>)
    ensures requests == RequestsFor(api, payload, mode, checkRunId, PositiveNumbers(numbers))
  {
    var found: seq<ReviewRequest> := [];
    for i := 0 to |numbers|
      invariant RequestsFor(api, payload, mode, checkRunId, PositiveNumbers(numbers[..i])) == Some(found)
    {
      NextNumber(api, payload, mode, checkRunId, numbers, i);
      if numbers[i] <= 0 {
        continue;
      }
      var request := RequestFor(api, payload, mode, checkRunId, numbers[i]);
      if request.None? {
        RaisesForAll(api, payload, mode, checkRunId, numbers, i + 1);
        return None;
      }
      found := found + [request.value];
    }
    assert numbers[..|numbers|] == numbers;
    requests := Some(found);
  }

  lemma NextNumber(api: Api, payload: Payload, mode: string, checkRunId: string, numbers: seq<int>, i: int)
    requires 0 <= i < |numbers|
    ensures var before := RequestsFor(api, payload, mode, checkRunId, PositiveNumbers(numbers[..i]));
            var next := RequestsFor(api, payload, mode, checkRunId, PositiveNumbers(numbers[..i + 1]));
            var request := RequestFor(api, payload, mode, checkRunId, numbers[i]);
            && (numbers[i] <= 0 ==> next == before)
            && (numbers[i] > 0 && before.Some? ==>
                  next == if request.None? then None else Some(before.value + [request.value]))
  {
    var earlier := PositiveNumbers(numbers[..i]);
    assert numbers[..i + 1][..i] == numbers[..i];
    if numbers[i] > 0 {
      assert PositiveNumbers(numbers[..i + 1]) == earlier + [numbers[i]];
      assert (earlier + [numbers[i]])[..|earlier|] == earlier;
    } else {
      assert earlier + [] == earlier;
    }
  }

  lemma {:induction false} RaisesForAll(
      api: Api, payload: Payload, mode: string, checkRunId: string, numbers: seq<int>, i: int)
    requires 0 <= i <= |numbers|
    requires RequestsFor(api, payload, mode, checkRunId, PositiveNumbers(numbers[..i])).None?
    ensures RequestsFor(api, payload, mode, checkRunId, PositiveNumbers(numbers)).None?
    decreases |numbers| - i
  {
    if i == |numbers| {
      assert numbers[..i] == numbers;
    } else {
      StillRaises(api, payload, mode, checkRunId, numbers, i);
      RaisesForAll(api, payload, mode, checkRunId, numbers, i + 1);
    }
  }

  lemma StillRaises(api: Api, payload: Payload, mode: string, checkRunId: string, numbers: seq<int>, i: int)
    requires 0 <= i < |numbers|
    requires RequestsFor(api, payload, mode, checkRunId, PositiveNumbers(numbers[..i])).None?
    ensures RequestsFor(api, payload, mode, checkRunId, PositiveNumbers(numbers[..i + 1])).None?
  {
    var earlier := PositiveNumbers(numbers[..i]);
    assert numbers[..i + 1][..i] == numbers[..i];
    if numbers[i] > 0 {
      assert PositiveNumbers(numbers[..i + 1]) == earlier + [numbers[i]];
      assert (earlier + [numbers[i]])[..|earlier|] == earlier;
    } else {
      assert PositiveNumbers(numbers[..i + 1]) == earlier;
    }
  }

  const PULL_REQUEST_ACTIONS: set<string> := {"opened", "reopened", "synchronize", "ready_for_review"}

  function Nothing(status: Status): Option<Plan> {
    Some(Plan(status, []))
  }

  function ReadyUnlessEmpty(requests: Option<seq<ReviewRequest>>): Option<Plan> {
    if requests.None? then None
    else Some(Plan(if requests.value == [] then Ignored else Ready, requests.value))
  }

  /** _pull_request_plan; None where the API raises. */
  function PullRequestPlan(settings: Settings, api: Api, payload: Payload): Option<Plan> {
    if settings.reviewMode !in {"pull_request", "all"} then Nothing(Accepted)
    else if payload.action !in PULL_REQUEST_ACTIONS then Nothing(Ignored)
    else if payload.pullRequest.draft then Nothing(Ignored)
    else
      var request := BuildRequest(api, payload, payload.pullRequest, AUTO_MODE, "");
      if request.None? then None else Some(Plan(Ready, [request.value]))
  }

  /** Whether a completed check is one of the service's own. */
  predicate IsSelf(settings: Settings, event: EventName, check: Check) {
    || (settings.appId != "" && check.appId == settings.appId)
    || (event == CheckRun && check.name == settings.checkRunName)
  }

  /** _check_payload_plan, for check_suite and check_run. */
  function CheckPlan(settings: Settings, api: Api, event: EventName, payload: Payload): Option<Plan> {
    if settings.reviewMode == "after_checks" && event == CheckRun then Nothing(Accepted)
    else if settings.reviewMode !in {"after_checks", "all"} then Nothing(Ignored)
    else if payload.action != "completed" then Nothing(Accepted)
    else if IsSelf(settings, event, payload.check) then Nothing(Ignored)
    else if payload.check.pullNumbers == [] then Nothing(Ignored)
    else ReadyUnlessEmpty(RequestsFor(api, payload, AUTO_MODE, "", PositiveNumbers(payload.check.pullNumbers)))
  }

  /** _requested_action_plan */
  function RequestedActionPlan(settings: Settings, api: Api, payload: Payload): Option<Plan> {
    if payload.identifier != DEEP_REVIEW_ACTION_IDENTIFIER then Nothing(Ignored)
    else if payload.check.name != settings.checkRunName then Nothing(Ignored)
    else if payload.check.pullNumbers == [] then Nothing(Ignored)
    else if payload.installationId == "" then None
    else ReadyUnlessEmpty(RequestsFor(api, payload, DEEP_MODE, payload.check.id,
        PositiveNumbers(payload.check.pullNumbers)))
  }

  predicate IsRequestedAction(event: EventName, payload: Payload) {
    event == CheckRun && payload.action == "requested_action"
  }

  /** review_plan */
  function ReviewPlan(settings: Settings, api: Api, event: EventName, payload: Payload): Option<Plan> {
    match event
    case Ping => Nothing(Ignored)
    case OtherEvent => Nothing(Ignored)
    case PullRequestEvent => PullRequestPlan(settings, api, payload)
    case CheckSuite => CheckPlan(settings, api, event, payload)
    case CheckRun =>
      if IsRequestedAction(event, payload) then RequestedActionPlan(settings, api, payload)
      else CheckPlan(settings, api, event, payload)
  }

  lemma {:induction false} RequestsAre(api: Api, payload: Payload, mode: string, checkRunId: string, numbers: seq<int>)
    ensures var requests := RequestsFor(api, payload, mode, checkRunId, numbers);
            requests.Some? ==>
              && |requests.value| == |numbers|
              && forall i :: 0 <= i < |numbers| ==>
                   && RequestFor(api, payload, mode, checkRunId, numbers[i]) == Some(requests.value[i])
                   && requests.value[i].reviewMode == mode && requests.value[i].checkRunId == checkRunId
  {
    if numbers != [] {
      RequestsAre(api, payload, mode, checkRunId, numbers[..|numbers| - 1]);
    }
  }

  ghost predicate PlansRequest(settings: Settings, api: Api, event: EventName, payload: Payload, r: ReviewRequest) {
    var plan := ReviewPlan(settings, api, event, payload);
    plan.Some? && r in plan.value.requests
  }

  /** A planned review is a deep one exactly when a user has pressed the deep review button of the
      service's own check run, and then it goes to that check run. */
  lemma DeepOnlyOnRequest(settings: Settings, api: Api, event: EventName, payload: Payload, r: ReviewRequest)
    requires PlansRequest(settings, api, event, payload, r)
    ensures r.reviewMode == DEEP_MODE || r.reviewMode == AUTO_MODE
    ensures r.reviewMode == DEEP_MODE <==> IsRequestedAction(event, payload)
    ensures r.reviewMode == DEEP_MODE ==>
              && payload.identifier == DEEP_REVIEW_ACTION_IDENTIFIER && payload.check.name == settings.checkRunName
              && r.checkRunId == payload.check.id
  {
    var numbers := PositiveNumbers(payload.check.pullNumbers);
    RequestsAre(api, payload, DEEP_MODE, payload.check.id, numbers);
    RequestsAre(api, payload, AUTO_MODE, "", numbers);
    assert DEEP_MODE[0] != AUTO_MODE[0];
  }

  lemma {:induction false} ReachableRequests(
      api: Api, payload: Payload, mode: string, checkRunId: string, numbers: seq<int>)
    requires forall n :: n in numbers ==> RequestFor(api, payload, mode, checkRunId, n).Some?
    ensures RequestsFor(api, payload, mode, checkRunId, numbers).Some?
  {
    if numbers != [] {
      ReachableRequests(api, payload, mode, checkRunId, numbers[..|numbers| - 1]);
      assert numbers[|numbers| - 1] in numbers;
    }
  }

  /** A check of the service's own App starts nothing but what a user asks for, in every mode. */
  lemma OwnCheckStartsNothing(settings: Settings, api: Api, event: EventName, payload: Payload)
    requires settings.appId != "" && payload.check.appId == settings.appId
    requires event == CheckSuite || (event == CheckRun && !IsRequestedAction(event, payload))
    ensures ReviewPlan(settings, api, event, payload).Some?
    ensures ReviewPlan(settings, api, event, payload).value.requests == []
  {
  }

  /** In the mode that waits for checks, a completed check suite of reachable pull requests starts
      reviews if and only if it is not recognized as the service's own: without an App ID set, the
      service's own suite starts reviews too. */
  lemma SuiteStartsUnlessOwn(settings: Settings, api: Api, payload: Payload)
    requires settings.reviewMode == "after_checks" && payload.action == "completed"
    requires PositiveNumbers(payload.check.pullNumbers) != []
    requires forall n :: n in PositiveNumbers(payload.check.pullNumbers) ==>
               RequestFor(api, payload, AUTO_MODE, "", n).Some?
    ensures ReviewPlan(settings, api, CheckSuite, payload).Some?
    ensures ReviewPlan(settings, api, CheckSuite, payload).value.requests != []
       <==> settings.appId == "" || payload.check.appId != settings.appId
  {
    var numbers := PositiveNumbers(payload.check.pullNumbers);
    ReachableRequests(api, payload, AUTO_MODE, "", numbers);
    RequestsAre(api, payload, AUTO_MODE, "", numbers);
    assert payload.check.pullNumbers != [];
  }

  /** The event is one that starts reviews in the configured mode: a pull request that is opened or
      pushed to and is no draft; a finished check of another App, which for a single check run is also
      none of the service's by name; or the button for a deep review, in every mode. */
  predicate Starts(settings: Settings, event: EventName, payload: Payload) {
    match event
    case PullRequestEvent =>
      && settings.reviewMode in {"pull_request", "all"} && !payload.pullRequest.draft
      && payload.action in {"opened", "reopened", "synchronize", "ready_for_review"}
    case CheckSuite =>
      && settings.reviewMode in {"after_checks", "all"} && payload.action == "completed"
      && (settings.appId == "" || payload.check.appId != settings.appId)
    case CheckRun =>
      || (&& payload.action == "requested_action" && payload.identifier == "run_deep_review"
          && payload.check.name == settings.checkRunName)
      || (&& settings.reviewMode == "all" && payload.action == "completed"
          && (settings.appId == "" || payload.check.appId != settings.appId)
          && payload.check.name != settings.checkRunName)
    case _ => false
  }

  /** A plan is ready exactly when it has requests. It has some only on an event that starts reviews,
      and all of them are deep ones for the check run whose button was pressed, or all are plain. */
  ghost predicate FollowsRules(settings: Settings, event: EventName, payload: Payload, plan: Plan) {
    && (plan.status == Ready <==> plan.requests != [])
    && (plan.requests != [] ==> Starts(settings, event, payload))
    && forall r :: r in plan.requests ==>
         && r.reviewMode == (if IsRequestedAction(event, payload) then DEEP_MODE else AUTO_MODE)
         && r.checkRunId == (if IsRequestedAction(event, payload) then payload.check.id else "")
  }

  lemma ManyFollow(api: Api, payload: Payload, mode: string, checkRunId: string)
    ensures var plan := ReadyUnlessEmpty(RequestsFor(api, payload, mode, checkRunId,
            PositiveNumbers(payload.check.pullNumbers)));
            plan.Some? ==>
              && (plan.value.status == Ready <==> plan.value.requests != [])
              && forall r :: r in plan.value.requests ==> r.reviewMode == mode && r.checkRunId == checkRunId
  {
    RequestsAre(api, payload, mode, checkRunId, PositiveNumbers(payload.check.pullNumbers));
  }

  lemma PlanFollowsRules(settings: Settings, api: Api, event: EventName, payload: Payload)
    ensures ReviewPlan(settings, api, event, payload).Some? ==>
              FollowsRules(settings, event, payload, ReviewPlan(settings, api, event, payload).value)
  {
    ManyFollow(api, payload, DEEP_MODE, payload.check.id);
    ManyFollow(api, payload, AUTO_MODE, "");
  }

  /** review_plan, branch by branch and request by request: what it plans follows the rules, and a
      check of the service's own App never starts anything by itself. */
  method MakePlan(settings: Settings, api: Api, event: EventName, payload: Payload) returns (plan: Option<Plan>)
    ensures plan == ReviewPlan(settings, api, event, payload)
    ensures plan.Some? ==> FollowsRules(settings, event, payload, plan.value)
    ensures (event == CheckSuite || event == CheckRun) && !IsRequestedAction(event, payload)
            && settings.appId != "" && payload.check.appId == settings.appId ==>
              plan.Some? && plan.value.requests == []
  {
    PlanFollowsRules(settings, api, event, payload);
    match event {
      case Ping =>
        plan := Nothing(Ignored);
      case OtherEvent =>
        plan := Nothing(Ignored);
      case PullRequestEvent =>
        plan := MakePullRequestPlan(settings, api, payload);
      case CheckSuite =>
        plan := MakeCheckPlan(settings, api, event, payload);
      case CheckRun =>
        if IsRequestedAction(event, payload) {
          plan := MakeRequestedActionPlan(settings, api, payload);
        } else {
          plan := MakeCheckPlan(settings, api, event, payload);
        }
    }
  }

  method MakePullRequestPlan(settings: Settings, api: Api, payload: Payload) returns (plan: Option<Plan>)
    ensures plan == PullRequestPlan(settings, api, payload)
  {
    if settings.reviewMode !in {"pull_request", "all"} {
      return Nothing(Accepted);
    }
    if payload.action !in PULL_REQUEST_ACTIONS || payload.pullRequest.draft {
      return Nothing(Ignored);
    }
    var request := BuildRequest(api, payload, payload.pullRequest, AUTO_MODE, "");
    if request.None? {
      return None;
    }
    plan := Some(Plan(Ready, [request.value]));
  }

  method MakeCheckPlan(settings: Settings, api: Api, event: EventName, payload: Payload) returns (plan: Option<Plan>)
    ensures plan == CheckPlan(settings, api, event, payload)
  {
    if settings.reviewMode == "after_checks" && event == CheckRun {
      return Nothing(Accepted);
    }
    if settings.reviewMode !in {"after_checks", "all"} {
      return Nothing(Ignored);
    }
    if payload.action != "completed" {
      return Nothing(Accepted);
    }
    if IsSelf(settings, event, payload.check) || payload.check.pullNumbers == [] {
      return Nothing(Ignored);
    }
    var requests := CollectRequests(api, payload, AUTO_MODE, "", payload.check.pullNumbers);
    plan := ReadyUnlessEmpty(requests);
  }

  method MakeRequestedActionPlan(settings: Settings, api: Api, payload: Payload) returns (plan: Option<Plan>)
    ensures plan == RequestedActionPlan(settings, api, payload)
  {
    if payload.identifier != DEEP_REVIEW_ACTION_IDENTIFIER || payload.check.name != settings.checkRunName
      || payload.check.pullNumbers == [] {
      return Nothing(Ignored);
    }
    if payload.installationId == "" {
      return None;
    }
    var requests := CollectRequests(api, payload, DEEP_MODE, payload.check.id, payload.check.pullNumbers);
    plan := ReadyUnlessEmpty(requests);
  }

  // ---------------------------------------------------------------- handling deliveries

  /** What comes of one planned review: whether marking its check run as pending raises, and whether
      the review is stored. A review may be stored and still fail afterwards. */
  datatype Attempt = Attempt(pendingRaises: bool, stored: bool)

  /** A delivery with all it depends on. */
  datatype Delivery = Delivery(settings: Settings, api: Api, event: EventName, payload: Payload,
      attempts: nat -> Attempt)

  /** The keys that the requests from place i on add to the store. A failure to mark the check run
      ends the delivery; a failed review does not. */
  function Stored<K(==)>(keys: seq<K>, existing: set<K>, attempts: nat -> Attempt, i: nat): seq<K>
    requires i <= |keys|
    decreases |keys| - i
  {
    if i == |keys| then []
    else if keys[i] in existing then Stored(keys, existing, attempts, i + 1)
    else if attempts(i).pendingRaises then []
    else (if attempts(i).stored then [keys[i]] else []) + Stored(keys, existing, attempts, i + 1)
  }

  function Requests(d: Delivery): seq<ReviewRequest> {
    var plan := ReviewPlan(d.settings, d.api, d.event, d.payload);
    if plan.None? then [] else plan.value.requests
  }

  function Keys(requests: seq<ReviewRequest>): seq<string> {
    Each(IdempotencyKey, requests)
  }

  /** Without an installation there is no check run to mark, and nothing to raise. */
  function Marked(requests: seq<ReviewRequest>, attempts: nat -> Attempt): nat -> Attempt {
    (i: nat) =>
      if i < |requests| && requests[i].installationId == "" then attempts(i).(pendingRaises := false) else attempts(i)
  }

  function KeysOf<K(==)>(store: seq<K>): set<K> {
    set key | key in store
  }

  /** The store after requests have been dealt with. */
  function AfterRequests(requests: seq<ReviewRequest>, attempts: nat -> Attempt, store: seq<string>): seq<string> {
    store + Stored(Keys(requests), KeysOf(store), Marked(requests, attempts), 0)
  }

  /** The store after a delivery. */
  function Handled(d: Delivery, store: seq<string>): seq<string> {
    AfterRequests(Requests(d), d.attempts, store)
  }

  /** The background task of the webhook, and the keys of the reviews in the store, oldest first. */
  class WebhookTask {
    var store: seq<string>

    constructor ()
      ensures store == []
    {
      store := [];
    }

    method Handle(d: Delivery)
      modifies this
      ensures store == Handled(d, old(store))
    {
      var plan := MakePlan(d.settings, d.api, d.event, d.payload);
      if plan.Some? {
        ReviewAll(plan.value.requests, d.attempts);
      } else {
        assert store + [] == store;
      }
    }

    method ReviewAll(requests: seq<ReviewRequest>, attempts: nat -> Attempt)
      modifies this
      ensures store == AfterRequests(requests, attempts, old(store))
    {
      var existing := KeysOf(store);
      ghost var keys, marked := Keys(requests), Marked(requests, attempts);
      for i := 0 to |requests|
        invariant store + Stored(keys, existing, marked, i) == AfterRequests(requests, attempts, old(store))
      {
        StoredStep(keys, existing, marked, i, store);
        var key := IdempotencyKey(requests[i]);
        assert key == keys[i];
        if key in existing {
          continue;
        }
        if requests[i].installationId != "" && attempts(i).pendingRaises {
          return;
        }
        if attempts(i).stored {
          store := store + [key];
        }
      }
      assert store + [] == store;
    }
  }

  lemma StoredUnrolled<K>(keys: seq<K>, existing: set<K>, attempts: nat -> Attempt, i: nat)
    requires i < |keys|
    ensures var rest := Stored(keys, existing, attempts, i + 1);
            Stored(keys, existing, attempts, i)
            == if keys[i] in existing then rest
               else if attempts(i).pendingRaises then []
               else if attempts(i).stored then [keys[i]] + rest
               else rest
  {
  }

  lemma StoredStep<K>(keys: seq<K>, existing: set<K>, attempts: nat -> Attempt, i: nat, store: seq<K>)
    requires i < |keys|
    ensures var rest := Stored(keys, existing, attempts, i + 1);
            store + Stored(keys, existing, attempts, i)
            == if keys[i] in existing then store + rest
               else if attempts(i).pendingRaises then store
               else if attempts(i).stored then (store + [keys[i]]) + rest
               else store + rest
  {
    var rest := Stored(keys, existing, attempts, i + 1);
    StoredUnrolled(keys, existing, attempts, i);
    Regrouped(store, keys[i], rest);
  }

  lemma Regrouped<K>(store: seq<K>, key: K, rest: seq<K>)
    ensures store + ([key] + rest) == (store + [key]) + rest
    ensures store + [] == store
  {
  }

  // ---------------------------------------------------------------- at most once

  ghost predicate Distinct<T>(s: seq<T>) {
    forall i, j :: 0 <= i < j < |s| ==> s[i] != s[j]
  }

  /** The keys that are not in the store differ from all later ones. */
  ghost predicate FreshKeysDiffer<K>(keys: seq<K>, existing: set<K>) {
    forall i, j :: 0 <= i < j < |keys| && keys[i] !in existing ==> keys[i] != keys[j]
  }

  lemma DistinctCons<K>(key: K, rest: seq<K>)
    ensures Distinct([key] + rest) <==> key !in rest && Distinct(rest)
  {
    var all := [key] + rest;
    assert forall i :: 0 <= i < |rest| ==> all[i + 1] == rest[i];
    if Distinct(all) {
      forall i, j | 0 <= i < j < |rest|
        ensures rest[i] != rest[j]
      {
        assert all[i + 1] != all[j + 1];
      }
      forall i | 0 <= i < |rest|
        ensures rest[i] != key
      {
        assert all[0] != all[i + 1];
      }
    }
  }

  lemma {:induction false} StoredAre<K(!new)>(keys: seq<K>, existing: set<K>, attempts: nat -> Attempt, i: nat)
    requires i <= |keys|
    ensures forall key :: key in Stored(keys, existing, attempts, i) ==> key !in existing && key in keys[i..]
    decreases |keys| - i
  {
    if i < |keys| {
      StoredAre(keys, existing, attempts, i + 1);
      StoredUnrolled(keys, existing, attempts, i);
      assert keys[i..] == [keys[i]] + keys[i + 1..];
    }
  }

  lemma DiffersFromLater<K>(keys: seq<K>, existing: set<K>, i: nat)
    requires i < |keys| && FreshKeysDiffer(keys, existing) && keys[i] !in existing
    ensures keys[i] !in keys[i + 1..]
  {
  }

  lemma {:induction false} StoredDistinct<K(!new)>(keys: seq<K>, existing: set<K>, attempts: nat -> Attempt, i: nat)
    requires i <= |keys| && FreshKeysDiffer(keys, existing)
    ensures Distinct(Stored(keys, existing, attempts, i))
    decreases |keys| - i
  {
    if i < |keys| {
      var rest := Stored(keys, existing, attempts, i + 1);
      StoredDistinct(keys, existing, attempts, i + 1);
      StoredAre(keys, existing, attempts, i + 1);
      StoredUnrolled(keys, existing, attempts, i);
      if keys[i] !in existing {
        DiffersFromLater(keys, existing, i);
        assert keys[i] !in rest;
        DistinctCons(keys[i], rest);
      }
    }
  }

  lemma DistinctParts<K>(store: seq<K>, added: seq<K>)
    requires Distinct(store) && Distinct(added) && forall k :: 0 <= k < |added| ==> added[k] !in store
    ensures Distinct(store + added)
  {
  }

  lemma StoredKeepsDistinct<K(!new)>(keys: seq<K>, attempts: nat -> Attempt, store: seq<K>)
    requires Distinct(store) && FreshKeysDiffer(keys, KeysOf(store))
    ensures Distinct(store + Stored(keys, KeysOf(store), attempts, 0))
  {
    var added := Stored(keys, KeysOf(store), attempts, 0);
    StoredDistinct(keys, KeysOf(store), attempts, 0);
    StoredAre(keys, KeysOf(store), attempts, 0);
    forall k | 0 <= k < |added|
      ensures added[k] !in store
    {
      assert added[k] in added;
    }
    DistinctParts(store, added);
  }

  /** All reviews are stored. */
  ghost predicate AllStored(attempts: nat -> Attempt) {
    forall i :: attempts(i) == Attempt(false, true)
  }

  lemma {:induction false} StoredAll<K>(keys: seq<K>, existing: set<K>, attempts: nat -> Attempt, i: nat, j: nat)
    requires i <= j < |keys| && AllStored(attempts) && keys[j] !in existing
    ensures keys[j] in Stored(keys, existing, attempts, i)
    decreases |keys| - i
  {
    StoredUnrolled(keys, existing, attempts, i);
    if i < j {
      StoredAll(keys, existing, attempts, i + 1, j);
    }
  }

  lemma {:induction false} StoredTwice<K>(
      keys: seq<K>, existing: set<K>, attempts: nat -> Attempt, i: nat, j: nat, k: nat)
    requires i <= j < k < |keys| && AllStored(attempts) && keys[j] !in existing && keys[j] == keys[k]
    ensures !Distinct(Stored(keys, existing, attempts, i))
    decreases |keys| - i
  {
    StoredUnrolled(keys, existing, attempts, i);
    DistinctCons(keys[i], Stored(keys, existing, attempts, i + 1));
    if i == j {
      StoredAll(keys, existing, attempts, i + 1, k);
    } else {
      StoredTwice(keys, existing, attempts, i + 1, j, k);
    }
  }

  lemma StoredDuplicates<K(!new)>(keys: seq<K>, attempts: nat -> Attempt, store: seq<K>)
    requires AllStored(attempts) && !FreshKeysDiffer(keys, KeysOf(store))
    ensures !Distinct(store + Stored(keys, KeysOf(store), attempts, 0))
  {
    var i, j :| 0 <= i < j < |keys| && keys[i] !in KeysOf(store) && keys[i] == keys[j];
    var added := Stored(keys, KeysOf(store), attempts, 0);
    StoredTwice(keys, KeysOf(store), attempts, 0, i, j);
    var m, n :| 0 <= m < n < |added| && added[m] == added[n];
    assert (store + added)[|store| + m] == (store + added)[|store| + n];
  }

  /** When all its reviews are stored, a delivery stores some key twice exactly when two of its new
      requests have the same key: the keys in the store are read only once per delivery. */
  lemma DuplicateWhenStored(d: Delivery, store: seq<string>)
    requires Distinct(store) && AllStored(d.attempts)
    ensures Distinct(Handled(d, store)) <==> FreshKeysDiffer(Keys(Requests(d)), KeysOf(store))
  {
    var keys, attempts := Keys(Requests(d)), Marked(Requests(d), d.attempts);
    if FreshKeysDiffer(keys, KeysOf(store)) {
      StoredKeepsDistinct(keys, attempts, store);
    } else {
      StoredDuplicates(keys, attempts, store);
    }
  }

  /** A delivery never stores a key twice, whichever of its reviews fail and whatever raises, if and only
      if no two of its new requests have the same key. */
  lemma DuplicateExactly(d: Delivery, store: seq<string>)
    requires Distinct(store)
    ensures (forall attempts :: Distinct(Handled(d.(attempts := attempts), store)))
       <==> FreshKeysDiffer(Keys(Requests(d)), KeysOf(store))
  {
    var keys := Keys(Requests(d));
    if FreshKeysDiffer(keys, KeysOf(store)) {
      forall attempts
        ensures Distinct(Handled(d.(attempts := attempts), store))
      {
        StoredKeepsDistinct(keys, Marked(Requests(d), attempts), store);
      }
    } else {
      var stored := (i: nat) => Attempt(false, true);
      DuplicateWhenStored(d.(attempts := stored), store);
    }
  }

  /** A finished check suite of another App that lists one pull request twice. */
  function TwiceListed(): Delivery {
    Delivery(
      Settings("after_checks", "", "review"),
      Api((n: int) => Some(PullRequest(n, "abc", false)), (pr: PullRequest) => true),
      CheckSuite,
      Payload("completed", "", "o", "n", "1", PullRequest(0, "", false), Check("c", "tests", "2", [7, 7])),
      (i: nat) => Attempt(false, true))
  }

  lemma SevenIsReachable() returns (r: ReviewRequest)
    ensures RequestFor(TwiceListed().api, TwiceListed().payload, AUTO_MODE, "", 7) == Some(r)
  {
    r := RequestFor(TwiceListed().api, TwiceListed().payload, AUTO_MODE, "", 7).value;
  }

  lemma BothRequested(api: Api, payload: Payload, numbers: seq<int>, r: ReviewRequest)
    requires numbers == [7, 7] && RequestFor(api, payload, AUTO_MODE, "", 7) == Some(r)
    ensures RequestsFor(api, payload, AUTO_MODE, "", numbers) == Some([r, r])
  {
    ReachableRequests(api, payload, AUTO_MODE, "", numbers);
    RequestsAre(api, payload, AUTO_MODE, "", numbers);
    var requests := RequestsFor(api, payload, AUTO_MODE, "", numbers).value;
    assert |requests| == 2 && requests[0] == r && requests[1] == r;
    assert requests == [r, r];
  }

  lemma TwiceRequested() returns (r: ReviewRequest)
    ensures Requests(TwiceListed()) == [r, r]
  {
    var d, numbers := TwiceListed(), [7, 7];
    r := SevenIsReachable();
    SevenTwice(numbers);
    BothRequested(d.api, d.payload, numbers, r);
    assert d.payload.check.pullNumbers == numbers;
  }

  lemma SevenTwice(numbers: seq<int>)
    requires numbers == [7, 7]
    ensures PositiveNumbers(numbers) == numbers
  {
    assert numbers[..1] == [7] && [7][..0] == [];
    assert PositiveNumbers([7]) == [7];
  }

  /** Such a delivery, once all its reviews are stored, stores one key twice. */
  lemma ListedTwiceStoredTwice()
    ensures !Distinct(Handled(TwiceListed(), []))
  {
    var r := TwiceRequested();
    var keys := Keys(Requests(TwiceListed()));
    assert keys[0] == keys[1] && keys[0] !in KeysOf<string>([]);
    assert !FreshKeysDiffer(keys, KeysOf<string>([]));
    DuplicateWhenStored(TwiceListed(), []);
  }

  /** Handling one delivery after another. */
  function HandledAll(deliveries: seq<Delivery>, store: seq<string>): seq<string> {
    if deliveries == [] then store
    else Handled(deliveries[|deliveries| - 1], HandledAll(deliveries[..|deliveries| - 1], store))
  }

  /** The requests of one plan have different keys. */
  ghost predicate PlanKeysDiffer(d: Delivery) {
    Distinct(Keys(Requests(d)))
  }

  /** However deliveries repeat and whichever reviews fail, no review is stored twice under one key. */
  lemma {:induction false} AtMostOnce(deliveries: seq<Delivery>, store: seq<string>)
    requires Distinct(store) && forall d :: d in deliveries ==> PlanKeysDiffer(d)
    ensures Distinct(HandledAll(deliveries, store)) && store <= HandledAll(deliveries, store)
  {
    if deliveries != [] {
      var last, before := deliveries[|deliveries| - 1], deliveries[..|deliveries| - 1];
      AtMostOnce(before, store);
      assert PlanKeysDiffer(last);
      StoredKeepsDistinct(Keys(Requests(last)), Marked(Requests(last), last.attempts), HandledAll(before, store));
    }
  }

  lemma {:induction false} NothingStored<K>(keys: seq<K>, existing: set<K>, attempts: nat -> Attempt, i: nat)
    requires i <= |keys| && forall k :: 0 <= k < |keys| ==> keys[k] in existing
    ensures Stored(keys, existing, attempts, i) == []
    decreases |keys| - i
  {
    if i < |keys| {
      NothingStored(keys, existing, attempts, i + 1);
    }
  }

  lemma StoredAgain<K>(keys: seq<K>, attempts: nat -> Attempt, again: nat -> Attempt, store: seq<K>)
    requires AllStored(attempts)
    ensures var after := store + Stored(keys, KeysOf(store), attempts, 0);
            after + Stored(keys, KeysOf(after), again, 0) == after
  {
    var after := store + Stored(keys, KeysOf(store), attempts, 0);
    forall k | 0 <= k < |keys|
      ensures keys[k] in KeysOf(after)
    {
      if keys[k] !in KeysOf(store) {
        StoredAll(keys, KeysOf(store), attempts, 0, k);
      }
    }
    NothingStored(keys, KeysOf(after), again, 0);
    assert after + [] == after;
  }

  /** A delivery that has been dealt with changes nothing when it comes again, whatever may then fail. */
  lemma RedeliveryIsIdle(d: Delivery, again: Delivery, store: seq<string>)
    requires AllStored(d.attempts) && Requests(again) == Requests(d)
    ensures Handled(again, Handled(d, store)) == Handled(d, store)
  {
    StoredAgain(Keys(Requests(d)), Marked(Requests(d), d.attempts), Marked(Requests(d), again.attempts), store);
  }

  /** What a delivery of a check plans is what its pull requests give, or nothing. */
  lemma CheckRequests(d: Delivery, numbers: seq<int>) returns (mode: string, checkRunId: string)
    requires d.event != PullRequestEvent && numbers == PositiveNumbers(d.payload.check.pullNumbers)
    ensures Requests(d) == [] || RequestsFor(d.api, d.payload, mode, checkRunId, numbers) == Some(Requests(d))
  {
    mode, checkRunId := if IsRequestedAction(d.event, d.payload) then DEEP_MODE else AUTO_MODE,
    if IsRequestedAction(d.event, d.payload) then d.payload.check.id else "";
  }

  /** A check of pull requests with different numbers plans requests with different keys, where GitHub
      answers with the pull request that was asked for. */
  lemma DifferentNumbersDiffer(d: Delivery, numbers: seq<int>)
    requires d.event != PullRequestEvent && numbers == PositiveNumbers(d.payload.check.pullNumbers) && Distinct(numbers)
    requires forall n :: d.api.pullRequest(n).Some? ==> d.api.pullRequest(n).value.number == n
    requires forall r :: r in Requests(d) ==> PlainNames(r)
    ensures PlanKeysDiffer(d)
  {
    var mode, checkRunId := CheckRequests(d, numbers);
    RequestsAre(d.api, d.payload, mode, checkRunId, numbers);
    KeysDiffer(d.api, d.payload, mode, checkRunId, numbers, Requests(d));
    assert forall i :: 0 <= i < |Requests(d)| ==> Keys(Requests(d))[i] == IdempotencyKey(Requests(d)[i]);
  }

  lemma KeysDiffer(
      api: Api, payload: Payload, mode: string, checkRunId: string, numbers: seq<int>, requests: seq<ReviewRequest>)
    requires Distinct(numbers) && |requests| <= |numbers| && forall r :: r in requests ==> PlainNames(r)
    requires forall n :: api.pullRequest(n).Some? ==> api.pullRequest(n).value.number == n
    requires forall i :: 0 <= i < |requests| ==>
               RequestFor(api, payload, mode, checkRunId, numbers[i]) == Some(requests[i])
    ensures forall i, j :: 0 <= i < j < |requests| ==> IdempotencyKey(requests[i]) != IdempotencyKey(requests[j])
  {
    forall i, j | 0 <= i < j < |requests|
      ensures IdempotencyKey(requests[i]) != IdempotencyKey(requests[j])
    {
      assert requests[i].number == numbers[i] && requests[j].number == numbers[j];
      assert requests[i] in requests && requests[j] in requests;
      if IdempotencyKey(requests[i]) == IdempotencyKey(requests[j]) {
        KeyInjective(requests[i], requests[j]);
      }
    }
  }
}
