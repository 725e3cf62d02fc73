/** publisher.py, GitHubPublisher: one summary comment and fresh inline comments per review scope,
    against the comments of one pull request, with any call failing at any time. */
module Publisher {
  import opened Text
  import opened Lists

  datatype Scope = Automatic | Deep

  /** A comment; `app` is the ID of the GitHub App that wrote it, if one did. */
  datatype Comment = Comment(id: nat, app: Option<string>, body: string)

  /** What came of a call: it was done and answered; it was refused, or done with the answer lost, in
      a way that the publisher expects (HTTPError, URLError, ValueError); or another exception was
      raised, such as a read that times out, before or after the call was carried out. */
  datatype Reply = Done | Refused | Lost | Raised(after: bool)
  {
    predicate CarriedOut() {
      Done? || Lost? || (Raised? && after)
    }
  }

  /** The comments of a pull request, the next comment ID, how many calls have been made, and whether
      an exception that nothing catches has ended the publish. */
  datatype Site = Site(issue: seq<Comment>, review: seq<Comment>, nextId: nat, calls: nat, raised: bool)

  /** How the service runs: whether as a GitHub App, the App ID it is configured with, and the App
      that GitHub takes its comments to be from. */
  datatype Identity = Identity(appMode: bool, configured: string, actual: Option<string>)

  /** A review to publish: the texts of its inline comments, and its summary, which says how many
      inline comments there are. */
  datatype Review = Review(scope: Scope, inlineTexts: seq<string>, summary: nat -> string)

  const MARKER_START := "<!-- ai-code-review-agent:"
  const MARKER_END := " -->"
  const SUMMARY_AUTOMATIC := "summary:automatic"
  const SUMMARY_DEEP := "summary:deep"
  const INLINE_AUTOMATIC := "inline:automatic"
  const INLINE_DEEP := "inline:deep"

  function Marker(kind: string): string {
    MARKER_START + kind + MARKER_END
  }

  function SummaryMarker(scope: Scope): string {
    Marker(if scope == Deep then SUMMARY_DEEP else SUMMARY_AUTOMATIC)
  }

  function InlineMarker(scope: Scope): string {
    Marker(if scope == Deep then INLINE_DEEP else INLINE_AUTOMATIC)
  }

  function SummaryBody(review: Review, inlineCount: nat): string {
    review.summary(inlineCount) + ("\n" + (SummaryMarker(review.scope) + ("\n" + "")))
  }

  function InlineBody(scope: Scope, text: string): string {
    if text == "" then InlineMarker(scope) else text + ("\n" + ("\n" + InlineMarker(scope)))
  }

  /** _is_own_app_comment */
  predicate IsOwn(me: Identity, c: Comment) {
    me.appMode && me.configured != "" && c.app == Some(me.configured)
  }

  predicate OwnSummary(me: Identity, scope: Scope, c: Comment) {
    Contains(c.body, SummaryMarker(scope)) && IsOwn(me, c)
  }

  predicate OwnInline(me: Identity, scope: Scope, c: Comment) {
    Contains(c.body, InlineMarker(scope)) && IsOwn(me, c)
  }

  // ---------------------------------------------------------------- what GitHub does

  function Without(comments: seq<Comment>, id: nat): seq<Comment> {
    Where((c: Comment) => c.id != id, comments)
  }

  function Rewritten(comments: seq<Comment>, id: nat, body: string): seq<Comment> {
    Each((c: Comment) => if c.id == id then c.(body := body) else c, comments)
  }

  /** New comments with consecutive IDs. */
  function Fresh(me: Identity, bodies: seq<string>, nextId: nat): seq<Comment> {
    seq(|bodies|, i requires 0 <= i < |bodies| => Comment(nextId + i, me.actual, bodies[i]))
  }

  function Called(reply: Reply, s: Site): Site {
    s.(calls := s.calls + 1, raised := reply.Raised?)
  }

  function DeleteReviewComment(reply: Reply, s: Site, id: nat): Site {
    if !reply.CarriedOut() then Called(reply, s) else Called(reply, s).(review := Without(s.review, id))
  }

  function PatchIssueComment(reply: Reply, s: Site, id: nat, body: string): Site {
    if !reply.CarriedOut() then Called(reply, s) else Called(reply, s).(issue := Rewritten(s.issue, id, body))
  }

  function PostIssueComment(me: Identity, reply: Reply, s: Site, body: string): Site {
    if !reply.CarriedOut() then Called(reply, s)
    else Called(reply, s).(issue := s.issue + Fresh(me, [body], s.nextId), nextId := s.nextId + 1)
  }

  function PostReview(me: Identity, reply: Reply, s: Site, bodies: seq<string>): Site {
    if !reply.CarriedOut() then Called(reply, s)
    else Called(reply, s).(review := s.review + Fresh(me, bodies, s.nextId), nextId := s.nextId + |bodies|)
  }

  // ---------------------------------------------------------------- what the publisher does

  predicate ToDelete(me: Identity, scope: Scope, c: Comment) {
    OwnInline(me, scope, c) && c.id != 0
  }

  predicate ToUpdate(me: Identity, scope: Scope, c: Comment) {
    OwnSummary(me, scope, c) && c.id != 0
  }

  /** Deleting the listed comments one by one, until a call fails. */
  function DeleteListed(me: Identity, scope: Scope, net: nat -> Reply, listed: seq<Comment>, s: Site): Site
    decreases listed
  {
    if listed == [] then s
    else if !ToDelete(me, scope, listed[0]) then DeleteListed(me, scope, net, listed[1..], s)
    else
      var next := DeleteReviewComment(net(s.calls), s, listed[0].id);
      if net(s.calls) == Done then DeleteListed(me, scope, net, listed[1..], next) else next
  }

  /** _delete_previous_inline_comments */
  function CleanedUp(me: Identity, scope: Scope, net: nat -> Reply, s: Site): Site {
    if !me.appMode then s.(raised := false)
    else if net(s.calls) != Done then Called(net(s.calls), s)
    else DeleteListed(me, scope, net, s.review, Called(Done, s))
  }

  /** The inline comments posted as one review; the number is what the summary will say. */
  function InlinePosted(me: Identity, review: Review, net: nat -> Reply, s: Site): (Site, nat) {
    if s.raised || review.inlineTexts == [] then (s, 0)
    else
      var bodies := Each((text: string) => InlineBody(review.scope, text), review.inlineTexts);
      (PostReview(me, net(s.calls), s, bodies), if net(s.calls) == Done then |review.inlineTexts| else 0)
  }

  /** The last listed comment that is to be updated. */
  function LastToUpdate(me: Identity, scope: Scope, listed: seq<Comment>): Option<Comment> {
    if listed == [] then None
    else if ToUpdate(me, scope, listed[|listed| - 1]) then Some(listed[|listed| - 1])
    else LastToUpdate(me, scope, listed[..|listed| - 1])
  }

  /** _post_issue_comment; false when it raises. */
  function SummaryPosted(me: Identity, net: nat -> Reply, s: Site, body: string): (Site, bool) {
    (PostIssueComment(me, net(s.calls), s, body), net(s.calls) == Done)
  }

  /** Patching, and posting where that fails in an expected way. */
  function PatchedOrPosted(me: Identity, net: nat -> Reply, s: Site, found: Comment, body: string): (Site, bool) {
    var patched := PatchIssueComment(net(s.calls), s, found.id, body);
    if net(s.calls) == Done then (patched, true)
    else if patched.raised then (patched, false)
    else SummaryPosted(me, net, patched, body)
  }

  /** _upsert_issue_comment */
  function Upserted(me: Identity, scope: Scope, net: nat -> Reply, s: Site, body: string): (Site, bool) {
    if s.raised then (s, false)
    else if !me.appMode then SummaryPosted(me, net, s, body)
    else
      var t := Called(net(s.calls), s);
      if t.raised then (t, false)
      else if net(s.calls) != Done then SummaryPosted(me, net, t, body)
      else
        var found := LastToUpdate(me, scope, s.issue);
        if found.None? then SummaryPosted(me, net, t, body) else PatchedOrPosted(me, net, t, found.value, body)
  }

  /** publish between getting a token and completing the check run: all that concerns comments. */
  function Published(me: Identity, review: Review, net: nat -> Reply, s: Site): (Site, bool) {
    var inline := InlinePosted(me, review, net, CleanedUp(me, review.scope, net, s));
    Upserted(me, review.scope, net, inline.0, SummaryBody(review, inline.1))
  }

  /** What a publish has besides the comments: a token of its own, where the App is installed, and
      whether there is a check run to complete. */
  datatype Setup = Setup(ownToken: bool, installed: bool, checkRun: bool)

  /** _token_for; nothing catches its exceptions. */
  function TokenTaken(me: Identity, setup: Setup, net: nat -> Reply, s: Site): Site {
    if setup.ownToken then s.(raised := false)
    else if !me.appMode || !setup.installed then s.(raised := true)
    else s.(calls := s.calls + 1, raised := net(s.calls) != Done)
  }

  /** _complete_check_run; nothing catches its exceptions either. */
  function CheckCompleted(me: Identity, setup: Setup, net: nat -> Reply, s: Site): Site {
    if !me.appMode || !setup.checkRun then s else s.(calls := s.calls + 1, raised := net(s.calls) != Done)
  }

  /** The whole of publish; false when it raises. */
  function Publication(me: Identity, setup: Setup, review: Review, net: nat -> Reply, s: Site): (Site, bool) {
    var t := TokenTaken(me, setup, net, s);
    if t.raised then (t, false)
    else
      var (u, ok) := Published(me, review, net, t);
      if !ok then (u, false)
      else
        var v := CheckCompleted(me, setup, net, u);
        (v, !v.raised)
  }

  lemma LastToUpdateStep(me: Identity, scope: Scope, listed: seq<Comment>, i: int)
    requires 0 <= i < |listed|
    ensures LastToUpdate(me, scope, listed[..i + 1])
         == if ToUpdate(me, scope, listed[i]) then Some(listed[i]) else LastToUpdate(me, scope, listed[..i])
  {
    assert listed[..i + 1][..i] == listed[..i];
  }

  // ---------------------------------------------------------------- the same, call by call

  /** The comments of one pull request as GitHub keeps them; `net` says what comes of each call. */
  class PullRequestComments {
    const me: Identity
    const net: nat -> Reply
    var issue: seq<Comment>
    var review: seq<Comment>
    var nextId: nat
    var calls: nat
    var raised: bool

    function State(): Site
      reads this
    {
      Site(issue, review, nextId, calls, raised)
    }

    constructor (me: Identity, net: nat -> Reply)
      ensures this.me == me && this.net == net && State() == NO_COMMENTS
    {
      this.me, this.net := me, net;
      issue, review, nextId, calls, raised := [], [], 1, 0, false;
    }

    method Answer() returns (reply: Reply)
      modifies `calls, `raised
      ensures reply == net(old(calls)) && calls == old(calls) + 1 && raised == reply.Raised?
    {
      reply := net(calls);
      calls := calls + 1;
      raised := reply.Raised?;
    }

    method Delete(id: nat) returns (ok: bool)
      modifies `calls, `raised, `review
      ensures State() == DeleteReviewComment(net(old(calls)), old(State()), id)
      ensures ok <==> net(old(calls)) == Done
    {
      var reply := Answer();
      if reply.CarriedOut() {
        review := Without(review, id);
      }
      ok := reply == Done;
    }

    method Patch(id: nat, body: string) returns (ok: bool)
      modifies `calls, `raised, `issue
      ensures State() == PatchIssueComment(net(old(calls)), old(State()), id, body)
      ensures ok <==> net(old(calls)) == Done
    {
      var reply := Answer();
      if reply.CarriedOut() {
        issue := Rewritten(issue, id, body);
      }
      ok := reply == Done;
    }

    method Post(body: string) returns (ok: bool)
      modifies this
      ensures State() == SummaryPosted(me, net, old(State()), body).0
      ensures ok <==> net(old(calls)) == Done
    {
      var reply := Answer();
      if reply.CarriedOut() {
        issue := issue + Fresh(me, [body], nextId);
        nextId := nextId + 1;
      }
      ok := reply == Done;
    }

    method PostInline(bodies: seq<string>) returns (ok: bool)
      modifies this
      ensures State() == PostReview(me, net(old(calls)), old(State()), bodies)
      ensures ok <==> net(old(calls)) == Done
    {
      var reply := Answer();
      if reply.CarriedOut() {
        review := review + Fresh(me, bodies, nextId);
        nextId := nextId + |bodies|;
      }
      ok := reply == Done;
    }

    method DeletePreviousInlineComments(scope: Scope)
      modifies `calls, `raised, `review
      ensures State() == CleanedUp(me, scope, net, old(State()))
    {
      raised := false;
      if !me.appMode {
        return;
      }
      var listed := review;
      var reply := Answer();
      if reply != Done {
        return;
      }
      ghost var clean := DeleteListed(me, scope, net, listed, State());
      assert listed[0..] == listed;
      for i := 0 to |listed|
        invariant DeleteListed(me, scope, net, listed[i..], State()) == clean
      {
        if !Contains(listed[i].body, InlineMarker(scope)) {
          continue;
        }
        if !IsOwn(me, listed[i]) {
          continue;
        }
        if listed[i].id != 0 {
          assert ToDelete(me, scope, listed[i]);
          var ok := Delete(listed[i].id);
          if !ok {
            return;
          }
        }
      }
    }

    method UpsertIssueComment(scope: Scope, body: string) returns (ok: bool)
      requires !raised
      modifies this
      ensures (State(), ok) == Upserted(me, scope, net, old(State()), body)
    {
      if me.appMode {
        var listed := issue;
        var reply := Answer();
        if raised {
          return false;
        }
        if reply == Done {
          var i := |listed|;
          assert listed[..i] == listed;
          while i > 0
            invariant 0 <= i <= |listed|
            invariant LastToUpdate(me, scope, listed[..i]) == LastToUpdate(me, scope, listed)
            invariant State() == Called(Done, old(State()))
          {
            i := i - 1;
            LastToUpdateStep(me, scope, listed, i);
            if !Contains(listed[i].body, SummaryMarker(scope)) {
              continue;
            }
            if !IsOwn(me, listed[i]) {
              continue;
            }
            if listed[i].id != 0 {
              ok := Patch(listed[i].id, body);
              if ok || raised {
                return;
              }
              ok := Post(body);
              return;
            }
          }
        }
      }
      ok := Post(body);
    }

    method TakeToken(setup: Setup)
      modifies `calls, `raised
      ensures State() == TokenTaken(me, setup, net, old(State()))
    {
      raised := false;
      if setup.ownToken {
        return;
      }
      if !me.appMode || !setup.installed {
        raised := true;
        return;
      }
      var reply := Answer();
      raised := reply != Done;
    }

    method CompleteCheckRun(setup: Setup)
      modifies `calls, `raised
      ensures State() == CheckCompleted(me, setup, net, old(State()))
    {
      if !me.appMode || !setup.checkRun {
        return;
      }
      var reply := Answer();
      raised := reply != Done;
    }

    /** Whether it returns; where it does not, an exception is handed on. */
    method Publish(r: Review, setup: Setup) returns (ok: bool)
      modifies this
      ensures (State(), ok) == Publication(me, setup, r, net, old(State()))
    {
      TakeToken(setup);
      if raised {
        return false;
      }
      ok := PublishComments(r);
      if !ok {
        return;
      }
      CompleteCheckRun(setup);
      ok := !raised;
    }

    method PublishComments(r: Review) returns (ok: bool)
      modifies this
      ensures (State(), ok) == Published(me, r, net, old(State()))
    {
      DeletePreviousInlineComments(r.scope);
      if raised {
        return false;
      }
      var inlineCount := 0;
      if r.inlineTexts != [] {
        var posted := PostInline(Each((text: string) => InlineBody(r.scope, text), r.inlineTexts));
        if posted {
          inlineCount := |r.inlineTexts|;
        }
        if raised {
          return false;
        }
      }
      ok := UpsertIssueComment(r.scope, SummaryBody(r, inlineCount));
    }
  }

  // ---------------------------------------------------------------- what is kept

  function CommentId(c: Comment): nat {
    c.id
  }

  /** Comment IDs are given once, and none is zero. */
  ghost predicate Proper(s: Site) {
    && s.nextId > 0
    && DistinctBy(CommentId, s.issue) && DistinctBy(CommentId, s.review)
    && (forall c :: c in s.issue ==> 0 < c.id < s.nextId)
    && (forall c :: c in s.review ==> 0 < c.id < s.nextId)
  }

  lemma RewrittenIs(comments: seq<Comment>, prior: Comment, body: string)
    requires DistinctBy(CommentId, comments) && prior in comments
    ensures var r := Rewritten(comments, prior.id, body);
            && |r| == |comments|
            && (forall i :: 0 <= i < |r| ==> r[i] == if comments[i] == prior then prior.(body := body) else comments[i])
  {
  }

  lemma {:induction false} LastToUpdateIs(me: Identity, scope: Scope, listed: seq<Comment>)
    ensures var r := LastToUpdate(me, scope, listed);
            && (r.Some? ==> r.value in listed && ToUpdate(me, scope, r.value))
            && (r.None? ==> forall c :: c in listed ==> !ToUpdate(me, scope, c))
  {
    if listed != [] {
      LastToUpdateIs(me, scope, listed[..|listed| - 1]);
      assert listed == listed[..|listed| - 1] + [listed[|listed| - 1]];
    }
  }

  lemma {:induction false} DeleteListedProper(
      me: Identity, scope: Scope, net: nat -> Reply, listed: seq<Comment>, s: Site)
    requires Proper(s)
    ensures var t := DeleteListed(me, scope, net, listed, s);
            Proper(t) && t.issue == s.issue && t.nextId == s.nextId
    decreases listed
  {
    if listed != [] {
      if !ToDelete(me, scope, listed[0]) {
        DeleteListedProper(me, scope, net, listed[1..], s);
      } else {
        var id := listed[0].id;
        WhereIn((c: Comment) => c.id != id, s.review);
        WhereDistinct(CommentId, (c: Comment) => c.id != id, s.review);
        var next := DeleteReviewComment(net(s.calls), s, id);
        assert Proper(next);
        DeleteListedProper(me, scope, net, listed[1..], next);
      }
    }
  }

  lemma CleanedUpProper(me: Identity, scope: Scope, net: nat -> Reply, s: Site)
    requires Proper(s)
    ensures var t := CleanedUp(me, scope, net, s);
            Proper(t) && t.issue == s.issue && t.nextId == s.nextId
  {
    DeleteListedProper(me, scope, net, s.review, Called(Done, s));
  }

  function InlineBodies(review: Review): seq<string> {
    Each((text: string) => InlineBody(review.scope, text), review.inlineTexts)
  }

  lemma PatchProper(reply: Reply, s: Site, prior: Comment, body: string)
    requires Proper(s) && prior in s.issue
    ensures Proper(PatchIssueComment(reply, s, prior.id, body))
  {
  }

  /** Every comment of the list has its own ID, whatever fails. */
  lemma PublishedProper(me: Identity, review: Review, net: nat -> Reply, s: Site)
    requires Proper(s)
    ensures Proper(Published(me, review, net, s).0)
  {
    var cleaned := CleanedUp(me, review.scope, net, s);
    CleanedUpProper(me, review.scope, net, s);
    var inline := InlinePosted(me, review, net, cleaned);
    UpsertedProper(me, review.scope, net, inline.0, SummaryBody(review, inline.1));
  }

  /** Which comment an upsert updates, if any; t is the state when it goes on to do so or to post,
      unless an exception has ended it. */
  lemma UpsertedForm(me: Identity, scope: Scope, net: nat -> Reply, s: Site, body: string)
    returns (t: Site, found: Option<Comment>)
    ensures t == (if me.appMode && !s.raised then Called(net(s.calls), s) else s)
    ensures found == if me.appMode && !t.raised && net(s.calls) == Done then LastToUpdate(me, scope, s.issue) else None
    ensures found.Some? ==> found.value in s.issue && ToUpdate(me, scope, found.value)
    ensures Upserted(me, scope, net, s, body)
         == if t.raised then (t, false)
            else if found.Some? then PatchedOrPosted(me, net, t, found.value, body)
            else SummaryPosted(me, net, t, body)
  {
    t := if me.appMode && !s.raised then Called(net(s.calls), s) else s;
    found := if me.appMode && !t.raised && net(s.calls) == Done then LastToUpdate(me, scope, s.issue) else None;
    LastToUpdateIs(me, scope, s.issue);
  }

  lemma UpsertedProper(me: Identity, scope: Scope, net: nat -> Reply, s: Site, body: string)
    requires Proper(s)
    ensures Proper(Upserted(me, scope, net, s, body).0)
  {
    var t, found := UpsertedForm(me, scope, net, s, body);
    if !t.raised && found.Some? {
      PatchedOrPostedProper(me, net, t, found.value, body);
    }
  }

  lemma PatchedOrPostedProper(me: Identity, net: nat -> Reply, s: Site, found: Comment, body: string)
    requires Proper(s) && found in s.issue
    ensures Proper(PatchedOrPosted(me, net, s, found, body).0)
  {
    var patched := PatchIssueComment(net(s.calls), s, found.id, body);
    PatchProper(net(s.calls), s, found, body);
  }

  /** Deleting leaves alone the comments with a property that no comment to be deleted has. */
  lemma {:induction false} DeleteKeeps(
    me: Identity, scope: Scope, net: nat -> Reply, listed: seq<Comment>, s: Site, all: seq<Comment>, p: Comment -> bool)
    requires DistinctBy(CommentId, all)
    requires forall c :: c in s.review || c in listed ==> c in all
    requires forall c :: c in all && ToDelete(me, scope, c) ==> !p(c)
    ensures Where(p, DeleteListed(me, scope, net, listed, s).review) == Where(p, s.review)
    decreases listed
  {
    if listed != [] {
      if !ToDelete(me, scope, listed[0]) {
        DeleteKeeps(me, scope, net, listed[1..], s, all, p);
      } else {
        var c0 := listed[0];
        var next := DeleteReviewComment(net(s.calls), s, c0.id);
        var other := (c: Comment) => c.id != c0.id;
        forall c | c in s.review && p(c)
          ensures other(c)
        {
          SameKeySame(CommentId, all, c, c0);
        }
        WhereIn(other, s.review);
        WhereOfWhere(p, other, s.review);
        DeleteKeeps(me, scope, net, listed[1..], next, all, p);
      }
    }
  }

  /** Updating leaves alone the comments with a property that the comment to be updated has neither
      before nor after; posting adds one comment at the end. */
  lemma PatchKeeps(reply: Reply, s: Site, prior: Comment, body: string, p: Comment -> bool)
    requires Proper(s) && prior in s.issue && !p(prior) && !p(prior.(body := body))
    ensures Where(p, PatchIssueComment(reply, s, prior.id, body).issue) == Where(p, s.issue)
  {
    RewrittenIs(s.issue, prior, body);
    WhereChanged(p, s.issue, Rewritten(s.issue, prior.id, body));
  }

  lemma PostKeeps(me: Identity, reply: Reply, s: Site, body: string, p: Comment -> bool)
    ensures Where(p, s.issue) <= Where(p, PostIssueComment(me, reply, s, body).issue)
    ensures !p(Comment(s.nextId, me.actual, body)) ==>
              Where(p, PostIssueComment(me, reply, s, body).issue) == Where(p, s.issue)
  {
  }

  lemma PatchedOrPostedKeeps(me: Identity, net: nat -> Reply, s: Site, found: Comment, body: string, p: Comment -> bool)
    requires Proper(s) && found in s.issue && !p(found) && !p(found.(body := body))
    ensures Where(p, s.issue) <= Where(p, PatchedOrPosted(me, net, s, found, body).0.issue)
    ensures !p(Comment(s.nextId, me.actual, body)) ==>
              Where(p, PatchedOrPosted(me, net, s, found, body).0.issue) == Where(p, s.issue)
  {
    var patched := PatchIssueComment(net(s.calls), s, found.id, body);
    PatchKeeps(net(s.calls), s, found, body, p);
    PostKeeps(me, net(patched.calls), patched, body, p);
  }

  lemma UpsertKeeps(me: Identity, scope: Scope, net: nat -> Reply, s: Site, body: string, p: Comment -> bool)
    requires Proper(s)
    requires forall c :: c in s.issue && OwnSummary(me, scope, c) ==> !p(c) && !p(c.(body := body))
    ensures Where(p, s.issue) <= Where(p, Upserted(me, scope, net, s, body).0.issue)
    ensures !p(Comment(s.nextId, me.actual, body)) ==>
              Where(p, Upserted(me, scope, net, s, body).0.issue) == Where(p, s.issue)
  {
    var t, found := UpsertedForm(me, scope, net, s, body);
    if found.Some? {
      PatchedOrPostedKeeps(me, net, t, found.value, body, p);
    } else {
      PostKeeps(me, net(t.calls), t, body, p);
    }
  }

  lemma UpsertSparesReview(me: Identity, scope: Scope, net: nat -> Reply, s: Site, body: string)
    ensures Upserted(me, scope, net, s, body).0.review == s.review
  {
  }

  lemma CleanUpKeeps(me: Identity, scope: Scope, net: nat -> Reply, s: Site, p: Comment -> bool)
    requires Proper(s)
    requires forall c :: c in s.review && OwnInline(me, scope, c) ==> !p(c)
    ensures Where(p, CleanedUp(me, scope, net, s).review) == Where(p, s.review)
  {
    DeleteKeeps(me, scope, net, s.review, Called(Done, s), s.review, p);
  }

  lemma InlineKeeps(me: Identity, review: Review, net: nat -> Reply, s: Site, p: Comment -> bool)
    requires Proper(s)
    ensures Where(p, s.review) <= Where(p, InlinePosted(me, review, net, s).0.review)
    ensures (forall n: nat, text ::
               text in review.inlineTexts ==> !p(Comment(n, me.actual, InlineBody(review.scope, text)))) ==>
              Where(p, InlinePosted(me, review, net, s).0.review) == Where(p, s.review)
  {
    var posted := if net(s.calls).CarriedOut() then Fresh(me, InlineBodies(review), s.nextId) else [];
    WhereConcat(p, s.review, posted);
    if forall n: nat, text :: text in review.inlineTexts ==> !p(Comment(n, me.actual, InlineBody(review.scope, text))) {
      forall c | c in posted
        ensures !p(c)
      {
        var i :| 0 <= i < |posted| && posted[i] == c;
        assert c == Comment(s.nextId + i, me.actual, InlineBody(review.scope, review.inlineTexts[i]));
      }
      WhereNone(p, posted);
    }
  }

  /** A publish, seen through its parts. */
  lemma PublishedParts(me: Identity, review: Review, net: nat -> Reply, s: Site) returns (inline: Site, count: nat)
    requires Proper(s)
    ensures Proper(inline) && inline.issue == s.issue
    ensures inline == InlinePosted(me, review, net, CleanedUp(me, review.scope, net, s)).0
    ensures count == InlinePosted(me, review, net, CleanedUp(me, review.scope, net, s)).1
    ensures Published(me, review, net, s) == Upserted(me, review.scope, net, inline, SummaryBody(review, count))
    ensures AllDone(net) ==> !inline.raised && count == |review.inlineTexts|
  {
    if AllDone(net) {
      AllDeleted(me, review.scope, net, s.review, Called(Done, s));
    }
    var cleaned := CleanedUp(me, review.scope, net, s);
    CleanedUpProper(me, review.scope, net, s);
    inline, count := InlinePosted(me, review, net, cleaned).0, InlinePosted(me, review, net, cleaned).1;
  }

  lemma PublishKeepsReview(me: Identity, review: Review, net: nat -> Reply, s: Site, p: Comment -> bool)
    requires Proper(s)
    requires forall c :: c in s.review && OwnInline(me, review.scope, c) ==> !p(c)
    ensures Where(p, s.review) <= Where(p, Published(me, review, net, s).0.review)
    ensures (forall n: nat, text ::
               text in review.inlineTexts ==> !p(Comment(n, me.actual, InlineBody(review.scope, text)))) ==>
              Where(p, Published(me, review, net, s).0.review) == Where(p, s.review)
  {
    var inline, count := PublishedParts(me, review, net, s);
    CleanUpKeeps(me, review.scope, net, s, p);
    CleanedUpProper(me, review.scope, net, s);
    InlineKeeps(me, review, net, CleanedUp(me, review.scope, net, s), p);
    UpsertSparesReview(me, review.scope, net, inline, SummaryBody(review, count));
  }

  lemma PublishKeepsIssue(me: Identity, review: Review, net: nat -> Reply, s: Site, p: Comment -> bool)
    requires Proper(s)
    requires forall c :: c in s.issue && OwnSummary(me, review.scope, c) ==>
               !p(c) && forall n: nat :: !p(c.(body := SummaryBody(review, n)))
    ensures Where(p, s.issue) <= Where(p, Published(me, review, net, s).0.issue)
    ensures (forall k: nat, n: nat :: !p(Comment(k, me.actual, SummaryBody(review, n)))) ==>
              Where(p, Published(me, review, net, s).0.issue) == Where(p, s.issue)
  {
    var inline, count := PublishedParts(me, review, net, s);
    var body := SummaryBody(review, count);
    forall c | c in inline.issue && OwnSummary(me, review.scope, c)
      ensures !p(c) && !p(c.(body := body))
    {
    }
    UpsertKeeps(me, review.scope, net, inline, body, p);
  }

  /** The service recognizes its own comments. */
  predicate Recognizes(me: Identity) {
    me.appMode && me.configured != "" && me.actual == Some(me.configured)
  }

  function Foreign(me: Identity, comments: seq<Comment>): seq<Comment> {
    Where((c: Comment) => !IsOwn(me, c), comments)
  }

  /** Whatever call fails, no comment of another App or of a person is changed, deleted or moved; and
      a service that recognizes its own comments adds none that it does not. */
  lemma OthersUntouched(me: Identity, review: Review, net: nat -> Reply, s: Site)
    requires Proper(s)
    ensures var t := Published(me, review, net, s).0;
            && Foreign(me, s.issue) <= Foreign(me, t.issue)
            && Foreign(me, s.review) <= Foreign(me, t.review)
            && (Recognizes(me) ==>
                  Foreign(me, t.issue) == Foreign(me, s.issue) && Foreign(me, t.review) == Foreign(me, s.review))
  {
    var foreign := (c: Comment) => !IsOwn(me, c);
    PublishKeepsReview(me, review, net, s, foreign);
    PublishKeepsIssue(me, review, net, s, foreign);
  }

  /** So it is for the whole of publish, with its token and its check run. */
  lemma PublicationSparesOthers(me: Identity, setup: Setup, review: Review, net: nat -> Reply, s: Site)
    requires Proper(s)
    ensures var t := Publication(me, setup, review, net, s).0;
            && Foreign(me, s.issue) <= Foreign(me, t.issue)
            && Foreign(me, s.review) <= Foreign(me, t.review)
  {
    OthersUntouched(me, review, net, TokenTaken(me, setup, net, s));
  }

  /** The check run comes last: whether there is one, and whether it can be completed, makes no
      difference to the comments, only to whether publish returns. */
  lemma CheckRunComesLast(me: Identity, setup: Setup, review: Review, net: nat -> Reply, s: Site)
    ensures var without := Publication(me, setup.(checkRun := false), review, net, s);
            var whole := Publication(me, setup.(checkRun := true), review, net, s);
            && whole.0.issue == without.0.issue && whole.0.review == without.0.review
            && (whole.1 <==> without.1 && (me.appMode ==> net(without.0.calls) == Done))
  {
  }

  /** Without a token no comment is touched; with one the comments are those of a publish that needs none. */
  lemma TokenComesFirst(me: Identity, setup: Setup, review: Review, net: nat -> Reply, s: Site)
    ensures var t, u := TokenTaken(me, setup, net, s), Publication(me, setup, review, net, s).0;
            if t.raised then u.issue == s.issue && u.review == s.review && !Publication(me, setup, review, net, s).1
            else u.issue == Published(me, review, net, t).0.issue && u.review == Published(me, review, net, t).0.review
  {
  }

  // ---------------------------------------------------------------- the two scopes

  function Other(scope: Scope): Scope {
    if scope == Deep then Automatic else Deep
  }

  lemma ShorterDoesNotContain(text: string, part: string)
    requires |text| < |part|
    ensures !Contains(text, part)
  {
  }

  lemma MarkersApart(scope: Scope)
    ensures !Contains(SummaryMarker(scope), SummaryMarker(Other(scope)))
    ensures !Contains(InlineMarker(scope), InlineMarker(Other(scope)))
  {
    if scope == Deep {
      ShorterDoesNotContain(Marker(SUMMARY_DEEP), Marker(SUMMARY_AUTOMATIC));
      ShorterDoesNotContain(Marker(INLINE_DEEP), Marker(INLINE_AUTOMATIC));
    } else {
      LongerKind(SUMMARY_AUTOMATIC, SUMMARY_DEEP, 8);
      LongerKind(INLINE_AUTOMATIC, INLINE_DEEP, 7);
    }
  }

  lemma LongerKind(kind: string, other: string, k: int)
    requires |kind| == |other| + 5 && 0 <= k < |other| && kind[k] != other[k]
    ensures !Contains(Marker(kind), Marker(other))
  {
    assert Marker(kind)[|MARKER_START| + k] == kind[k];
    assert Marker(other)[|MARKER_START| + k] == other[k];
    OnlyAtStart(Marker(kind), Marker(other), |MARKER_START| + k);
  }

  /** The longer marker has its only opening bracket at its start, and soon differs. */
  lemma OnlyAtStart(text: string, part: string, k: int)
    requires |text| == |part| + 5 && 0 < k < |part| && text[k] != part[k] && part[0] == '<'
    requires text[1] != '<' && text[2] != '<' && text[3] != '<' && text[4] != '<' && text[5] != '<'
    ensures !Contains(text, part)
  {
  }

  lemma MarkerIsOneLine(scope: Scope)
    ensures SummaryMarker(scope) != "" && '\n' !in SummaryMarker(scope)
    ensures InlineMarker(scope) != "" && '\n' !in InlineMarker(scope)
  {
  }

  lemma EmptyContainsNone(part: string)
    requires part != ""
    ensures !Contains("", part)
  {
  }

  lemma ContainsItself(text: string)
    ensures Contains(text, text)
  {
    assert OccursAt(text, text, 0);
  }

  lemma SummaryMarks(review: Review, n: nat, scope: Scope)
    ensures Contains(SummaryBody(review, n), SummaryMarker(scope))
       <==> scope == review.scope || Contains(review.summary(n), SummaryMarker(scope))
  {
    var own, marker := SummaryMarker(review.scope), SummaryMarker(scope);
    MarkerIsOneLine(scope);
    ContainsAcross(review.summary(n), '\n', own + ("\n" + ""), marker);
    ContainsAcross(own, '\n', "", marker);
    EmptyContainsNone(marker);
    if scope == review.scope {
      ContainsItself(own);
    } else {
      MarkersApart(review.scope);
    }
  }

  lemma InlineMarks(own: Scope, text: string, scope: Scope)
    ensures Contains(InlineBody(own, text), InlineMarker(scope))
       <==> scope == own || Contains(text, InlineMarker(scope))
  {
    var marker := InlineMarker(scope);
    MarkerIsOneLine(scope);
    ContainsAcross(text, '\n', "\n" + InlineMarker(own), marker);
    ContainsAcross("", '\n', InlineMarker(own), marker);
    assert "" + ("\n" + InlineMarker(own)) == "\n" + InlineMarker(own);
    EmptyContainsNone(marker);
    if scope == own {
      ContainsItself(marker);
    } else {
      MarkersApart(own);
    }
  }

  /** The texts of a review do not quote the marker of the other scope. */
  ghost predicate Fair(review: Review) {
    && (forall n: nat :: !Contains(review.summary(n), SummaryMarker(Other(review.scope))))
    && (forall text :: text in review.inlineTexts ==> !Contains(text, InlineMarker(Other(review.scope))))
  }

  /** No own comment belongs to both scopes. */
  ghost predicate Clean(me: Identity, s: Site) {
    && (forall c :: c in s.issue ==> !(OwnSummary(me, Deep, c) && OwnSummary(me, Automatic, c)))
    && (forall c :: c in s.review ==> !(OwnInline(me, Deep, c) && OwnInline(me, Automatic, c)))
  }

  function OwnSummaries(me: Identity, scope: Scope, s: Site): seq<Comment> {
    Where((c: Comment) => OwnSummary(me, scope, c), s.issue)
  }

  function OwnInlines(me: Identity, scope: Scope, s: Site): seq<Comment> {
    Where((c: Comment) => OwnInline(me, scope, c), s.review)
  }

  /** Whatever call fails, publishing in one scope leaves the own comments of the other as they are. */
  lemma OtherScopeUntouched(me: Identity, review: Review, net: nat -> Reply, s: Site)
    requires Proper(s) && Clean(me, s) && Fair(review)
    ensures OwnSummaries(me, Other(review.scope), Published(me, review, net, s).0)
         == OwnSummaries(me, Other(review.scope), s)
    ensures OwnInlines(me, Other(review.scope), Published(me, review, net, s).0)
         == OwnInlines(me, Other(review.scope), s)
  {
    var other := Other(review.scope);
    forall n: nat
      ensures !Contains(SummaryBody(review, n), SummaryMarker(other))
    {
      SummaryMarks(review, n, other);
    }
    forall text | text in review.inlineTexts
      ensures !Contains(InlineBody(review.scope, text), InlineMarker(other))
    {
      InlineMarks(review.scope, text, other);
    }
    PublishKeepsIssue(me, review, net, s, (c: Comment) => OwnSummary(me, other, c));
    PublishKeepsReview(me, review, net, s, (c: Comment) => OwnInline(me, other, c));
  }

  // ---------------------------------------------------------------- when all calls succeed

  ghost predicate AllDone(net: nat -> Reply) {
    forall k :: net(k) == Done
  }

  // ---------------------------------------------------------------- what is deleted before a failure

  /** The listed comments that are to be deleted, in the order of the list. */
  function Marked(me: Identity, scope: Scope, listed: seq<Comment>): seq<Comment> {
    Where((c: Comment) => c.id != 0 && OwnInline(me, scope, c), listed)
  }

  /** One of the first n calls has deleted the comment. */
  ghost predicate Gone(marked: seq<Comment>, net: nat -> Reply, first: nat, n: nat, id: nat) {
    exists k: nat :: first <= k < first + n && k - first < |marked| && marked[k - first].id == id
                     && net(k) in {Done, Lost, Raised(true)}
  }

  /** Deleting has ended after n calls: all but the last were answered, the marked comments that they
      reached are gone, and all others are left as they were. */
  ghost predicate DeletedUpTo(marked: seq<Comment>, net: nat -> Reply, s: Site, n: nat, t: Site) {
    && n <= |marked| && t.calls == s.calls + n && t.issue == s.issue && t.nextId == s.nextId
    && (forall k :: s.calls <= k < s.calls + n - 1 ==> net(k) == Done)
    && (n < |marked| ==> n > 0 && net(s.calls + n - 1) != Done)
    && (t.raised <==> if n > 0 then net(s.calls + n - 1).Raised? else s.raised)
    && (forall c :: c in t.review <==> c in s.review && !Gone(marked, net, s.calls, n, c.id))
  }

  lemma MarkedOpens(me: Identity, scope: Scope, listed: seq<Comment>)
    requires listed != []
    ensures Marked(me, scope, listed)
         == (if ToDelete(me, scope, listed[0]) then [listed[0]] else []) + Marked(me, scope, listed[1..])
  {
    var p := (c: Comment) => c.id != 0 && OwnInline(me, scope, c);
    assert listed == [listed[0]] + listed[1..] && [listed[0]][..0] == [];
    WhereConcat(p, [listed[0]], listed[1..]);
  }

  lemma GoneOpens(first: Comment, later: seq<Comment>, net: nat -> Reply, calls: nat, n: nat, id: nat)
    ensures Gone([first] + later, net, calls, n + 1, id)
       <==> (first.id == id && net(calls) in {Done, Lost, Raised(true)}) || Gone(later, net, calls + 1, n, id)
  {
    var all := [first] + later;
    assert forall i :: 0 < i < |all| ==> all[i] == later[i - 1];
    if first.id == id && net(calls) in {Done, Lost, Raised(true)} {
      assert all[calls - calls].id == id;
    }
  }

  lemma OneDeleted(first: Comment, later: seq<Comment>, net: nat -> Reply, s: Site, next: Site, n: nat, t: Site)
    requires net(s.calls) == Done && next == DeleteReviewComment(Done, s, first.id)
    ensures DeletedUpTo(later, net, next, n, t) ==> DeletedUpTo([first] + later, net, s, n + 1, t)
  {
    WhereIn((c: Comment) => c.id != first.id, s.review);
    forall c | c in s.review
      ensures Gone([first] + later, net, s.calls, n + 1, c.id)
         <==> c.id == first.id || Gone(later, net, s.calls + 1, n, c.id)
    {
      GoneOpens(first, later, net, s.calls, n, c.id);
    }
  }

  lemma LastDeleted(first: Comment, later: seq<Comment>, net: nat -> Reply, s: Site, t: Site)
    requires net(s.calls) != Done && t == DeleteReviewComment(net(s.calls), s, first.id)
    ensures DeletedUpTo([first] + later, net, s, 1, t)
  {
    WhereIn((c: Comment) => c.id != first.id, s.review);
    forall c | c in s.review
      ensures Gone([first] + later, net, s.calls, 1, c.id)
         <==> c.id == first.id && net(s.calls) in {Done, Lost, Raised(true)}
    {
      GoneOpens(first, later, net, s.calls, 0, c.id);
    }
  }

  /** The marked comments are deleted in turn, and the first call that is not answered ends it. */
  lemma {:induction false} DeletesInTurn(
      me: Identity, scope: Scope, net: nat -> Reply, listed: seq<Comment>, s: Site) returns (n: nat)
    ensures DeletedUpTo(Marked(me, scope, listed), net, s, n, DeleteListed(me, scope, net, listed, s))
    decreases listed
  {
    if listed == [] {
      n := 0;
    } else {
      MarkedOpens(me, scope, listed);
      var later := Marked(me, scope, listed[1..]);
      if !ToDelete(me, scope, listed[0]) {
        n := DeletesInTurn(me, scope, net, listed[1..], s);
        assert [] + later == later;
      } else if net(s.calls) == Done {
        var next := DeleteReviewComment(Done, s, listed[0].id);
        var m := DeletesInTurn(me, scope, net, listed[1..], next);
        n := m + 1;
        OneDeleted(listed[0], later, net, s, next, m, DeleteListed(me, scope, net, listed[1..], next));
      } else {
        n := 1;
        LastDeleted(listed[0], later, net, s, DeleteReviewComment(net(s.calls), s, listed[0].id));
      }
    }
  }

  /** The first call lists the comments: what has no answer leaves all of them, and the listed ones are then
      deleted in turn. Only an App cleans up. */
  lemma CleansUp(me: Identity, scope: Scope, net: nat -> Reply, s: Site) returns (n: nat)
    ensures var t := CleanedUp(me, scope, net, s);
            && t.issue == s.issue && t.nextId == s.nextId
            && (!me.appMode ==> t.review == s.review && t.calls == s.calls && !t.raised)
            && (me.appMode && net(s.calls) != Done ==>
                  t.review == s.review && t.calls == s.calls + 1 && (t.raised <==> net(s.calls).Raised?))
            && (me.appMode && net(s.calls) == Done ==>
                  DeletedUpTo(Marked(me, scope, s.review), net, s.(calls := s.calls + 1, raised := false), n, t))
  {
    n := DeletesInTurn(me, scope, net, s.review, Called(Done, s));
  }

  /** The inline comments are posted in one call, if there are any and nothing has been raised; the summary
      counts them only when that call was answered. */
  lemma PostsInline(me: Identity, review: Review, net: nat -> Reply, s: Site)
    ensures var (t, count) := InlinePosted(me, review, net, s);
            && t.issue == s.issue
            && (s.raised || review.inlineTexts == [] ==> t == s && count == 0)
            && (!s.raised && review.inlineTexts != [] ==>
                  && t.calls == s.calls + 1 && (t.raised <==> net(s.calls).Raised?)
                  && count == (if net(s.calls) == Done then |review.inlineTexts| else 0)
                  && |t.review| == |s.review| + (if net(s.calls) in {Done, Lost, Raised(true)} then
                                                   |review.inlineTexts| else 0)
                  && t.nextId == s.nextId + (|t.review| - |s.review|)
                  && t.review[..|s.review|] == s.review)
  {
  }

  /** The posted comments are new ones of the App, in the order of the texts, each with its text over the marker. */
  lemma PostedAre(me: Identity, review: Review, net: nat -> Reply, s: Site, i: nat)
    requires var posted := InlinePosted(me, review, net, s).0.review;
             |s.review| <= i < |posted| && i - |s.review| < |review.inlineTexts|
    ensures var text, posted := review.inlineTexts[i - |s.review|], InlinePosted(me, review, net, s).0.review;
            posted[i] == Comment(s.nextId + (i - |s.review|), me.actual,
                                 if text == "" then InlineMarker(review.scope)
                                 else text + "\n\n" + InlineMarker(review.scope))
  {
    TwoLinesDown(review.inlineTexts[i - |s.review|], InlineMarker(review.scope));
  }

  lemma TwoLinesDown(text: string, marker: string)
    ensures text + ("\n" + ("\n" + marker)) == text + "\n\n" + marker
  {
  }

  /** A summary is posted in one call, as the last comment of the pull request. */
  lemma PostsSummary(me: Identity, net: nat -> Reply, s: Site, body: string)
    ensures var (t, ok) := SummaryPosted(me, net, s, body);
            && (ok <==> net(s.calls) == Done) && (t.raised <==> net(s.calls).Raised?)
            && t.calls == s.calls + 1 && t.review == s.review
            && (if net(s.calls) in {Done, Lost, Raised(true)} then
                  t.issue == s.issue + [Comment(s.nextId, me.actual, body)] && t.nextId == s.nextId + 1
                else t.issue == s.issue && t.nextId == s.nextId)
  {
    assert Fresh(me, [body], s.nextId) == [Comment(s.nextId, me.actual, body)];
  }

  /** A token of its own needs no call; otherwise an installed App gets one, and anything else raises. */
  lemma GetsToken(me: Identity, setup: Setup, net: nat -> Reply, s: Site)
    ensures var t, asks := TokenTaken(me, setup, net, s), !setup.ownToken && me.appMode && setup.installed;
            && t.issue == s.issue && t.review == s.review && t.nextId == s.nextId
            && t.calls == (if asks then s.calls + 1 else s.calls)
            && (t.raised <==> !setup.ownToken && (!me.appMode || !setup.installed || net(s.calls) != Done))
  {
  }

  /** Only an App completes a check run, and only where there is one; a call without an answer raises. */
  lemma CompletesCheckRun(me: Identity, setup: Setup, net: nat -> Reply, s: Site)
    ensures var t, asks := CheckCompleted(me, setup, net, s), me.appMode && setup.checkRun;
            && t.issue == s.issue && t.review == s.review && t.nextId == s.nextId
            && t.calls == (if asks then s.calls + 1 else s.calls)
            && (t.raised <==> if asks then net(s.calls) != Done else s.raised)
  {
  }

  lemma {:induction false} AllDeleted(me: Identity, scope: Scope, net: nat -> Reply, listed: seq<Comment>, s: Site)
    requires AllDone(net)
    ensures forall c :: c in DeleteListed(me, scope, net, listed, s).review ==>
              c in s.review && forall d :: d in listed && ToDelete(me, scope, d) ==> c.id != d.id
    ensures !s.raised ==> !DeleteListed(me, scope, net, listed, s).raised
    decreases listed
  {
    if listed != [] {
      var first, rest := listed[0], listed[1..];
      assert listed == [first] + rest;
      if !ToDelete(me, scope, first) {
        AllDeleted(me, scope, net, rest, s);
      } else {
        var next := DeleteReviewComment(net(s.calls), s, first.id);
        WhereIn((c: Comment) => c.id != first.id, s.review);
        AllDeleted(me, scope, net, rest, next);
      }
    }
  }

  lemma NoneLeft(me: Identity, scope: Scope, net: nat -> Reply, s: Site)
    requires AllDone(net) && Proper(s) && me.appMode
    ensures OwnInlines(me, scope, CleanedUp(me, scope, net, s)) == [] && !CleanedUp(me, scope, net, s).raised
  {
    var t := DeleteListed(me, scope, net, s.review, Called(Done, s));
    AllDeleted(me, scope, net, s.review, Called(Done, s));
    forall c | c in t.review
      ensures !OwnInline(me, scope, c)
    {
      assert c in s.review;
    }
    WhereNone((c: Comment) => OwnInline(me, scope, c), t.review);
  }

  /** The own inline comments of the scope are then the posted ones, in order, and no others. */
  lemma InlinesReplaced(me: Identity, review: Review, net: nat -> Reply, s: Site)
    requires Recognizes(me) && AllDone(net) && Proper(s)
    ensures OwnInlines(me, review.scope, Published(me, review, net, s).0) == Fresh(me, InlineBodies(review), s.nextId)
  {
    var cleaned := CleanedUp(me, review.scope, net, s);
    CleanedUpProper(me, review.scope, net, s);
    NoneLeft(me, review.scope, net, s);
    var own := (c: Comment) => OwnInline(me, review.scope, c);
    var posted := Fresh(me, InlineBodies(review), s.nextId);
    WhereConcat(own, cleaned.review, posted);
    forall c | c in posted
      ensures own(c)
    {
      var i :| 0 <= i < |posted| && posted[i] == c;
      InlineMarks(review.scope, review.inlineTexts[i], review.scope);
    }
    WhereAll(own, posted);
    assert [] + posted == posted;
    var inline, count := PublishedParts(me, review, net, s);
    UpsertSparesReview(me, review.scope, net, inline, SummaryBody(review, count));
  }

  /** Rewriting an own summary keeps how many there are. */
  lemma SummaryRewritten(me: Identity, scope: Scope, s: Site, found: Comment, body: string)
    requires Proper(s) && found in s.issue && OwnSummary(me, scope, found) && Contains(body, SummaryMarker(scope))
    ensures var own := (c: Comment) => OwnSummary(me, scope, c);
            var after := Where(own, Rewritten(s.issue, found.id, body));
            && |after| == |Where(own, s.issue)|
            && (|after| == 1 ==> after[0] == found.(body := body))
  {
    var own := (c: Comment) => OwnSummary(me, scope, c);
    var f := (c: Comment) => if c.id == found.id then c.(body := body) else c;
    forall i | 0 <= i < |s.issue|
      ensures own(f(s.issue[i])) == own(s.issue[i])
    {
      SameKeySame(CommentId, s.issue, s.issue[i], found);
    }
    WhereEach(own, f, s.issue);
    assert Rewritten(s.issue, found.id, body) == Each(f, s.issue);
    WhereIn(own, s.issue);
    assert found in Where(own, s.issue);
  }

  lemma SummaryAdded(me: Identity, scope: Scope, s: Site, body: string)
    requires Recognizes(me) && Contains(body, SummaryMarker(scope))
    ensures OwnSummaries(me, scope, PostIssueComment(me, Done, s, body))
         == OwnSummaries(me, scope, s) + [Comment(s.nextId, me.actual, body)]
  {
  }

  /** How many own summaries of the scope there are after an upsert, whatever fails. */
  function SummariesAfter(me: Identity, scope: Scope, net: nat -> Reply, s: Site): nat {
    var before, listing, next := |OwnSummaries(me, scope, s)|, net(s.calls), net(s.calls + 1);
    if listing.Raised? then before
    else if listing == Done && before > 0 then
      if (next == Refused || next == Lost) && net(s.calls + 2).CarriedOut() then before + 1 else before
    else if next.CarriedOut() then before + 1
    else before
  }

  lemma FoundIffAny(me: Identity, scope: Scope, s: Site)
    requires Proper(s)
    ensures LastToUpdate(me, scope, s.issue).Some? <==> OwnSummaries(me, scope, s) != []
    ensures LastToUpdate(me, scope, s.issue).Some? ==>
              LastToUpdate(me, scope, s.issue).value in s.issue
                && OwnSummary(me, scope, LastToUpdate(me, scope, s.issue).value)
  {
    var own := (c: Comment) => OwnSummary(me, scope, c);
    LastToUpdateIs(me, scope, s.issue);
    WhereIn(own, s.issue);
    var found := LastToUpdate(me, scope, s.issue);
    if found.Some? {
      assert found.value in Where(own, s.issue);
    }
    if Where(own, s.issue) != [] {
      assert Where(own, s.issue)[0] in Where(own, s.issue);
    }
  }

  lemma PostCounts(me: Identity, scope: Scope, reply: Reply, s: Site, body: string)
    requires Recognizes(me) && Contains(body, SummaryMarker(scope))
    ensures |OwnSummaries(me, scope, PostIssueComment(me, reply, s, body))|
         == |OwnSummaries(me, scope, s)| + if reply.CarriedOut() then 1 else 0
  {
  }

  /** A summary is doubled exactly when the listing or the update fails in an expected way and the
      comment posted instead is carried out; whether the failed update was does not matter. After an
      exception that nothing catches there is no other post. */
  lemma SummaryCount(me: Identity, scope: Scope, net: nat -> Reply, s: Site, body: string)
    requires Recognizes(me) && Proper(s) && !s.raised && Contains(body, SummaryMarker(scope))
    ensures |OwnSummaries(me, scope, Upserted(me, scope, net, s, body).0)| == SummariesAfter(me, scope, net, s)
  {
    var t, found := UpsertedForm(me, scope, net, s, body);
    FoundIffAny(me, scope, s);
    if t.raised {
    } else if found.None? {
      PostCounts(me, scope, net(t.calls), t, body);
    } else {
      UpdateCounts(me, scope, net, t, found.value, body);
    }
  }

  lemma UpdateCounts(me: Identity, scope: Scope, net: nat -> Reply, s: Site, found: Comment, body: string)
    requires Recognizes(me) && Proper(s) && Contains(body, SummaryMarker(scope))
    requires found in s.issue && OwnSummary(me, scope, found)
    ensures |OwnSummaries(me, scope, PatchedOrPosted(me, net, s, found, body).0)|
         == |OwnSummaries(me, scope, s)|
          + if net(s.calls) in {Refused, Lost} && net(s.calls + 1).CarriedOut() then 1 else 0
  {
    var patched := PatchIssueComment(net(s.calls), s, found.id, body);
    SummaryRewritten(me, scope, s, found, body);
    PostCounts(me, scope, net(patched.calls), patched, body);
  }

  /** With at most one own summary of the scope before, and all calls succeeding, there is exactly one
      after, and it is the new one. */
  lemma SummaryReplaced(me: Identity, review: Review, net: nat -> Reply, s: Site)
    requires Recognizes(me) && AllDone(net) && Proper(s) && |OwnSummaries(me, review.scope, s)| <= 1
    ensures var t := Published(me, review, net, s).0;
            && Published(me, review, net, s).1
            && |OwnSummaries(me, review.scope, t)| == 1
            && OwnSummaries(me, review.scope, t)[0].body == SummaryBody(review, |review.inlineTexts|)
  {
    var inline, count := PublishedParts(me, review, net, s);
    var body := SummaryBody(review, count);
    SummaryMarks(review, count, review.scope);
    var t, found := UpsertedForm(me, review.scope, net, inline, body);
    FoundIffAny(me, review.scope, inline);
    if found.None? {
      SummaryAdded(me, review.scope, t, body);
    } else {
      SummaryRewritten(me, review.scope, t, found.value, body);
    }
  }

  // ---------------------------------------------------------------- over a run of reviews

  lemma {:induction false} WhereEmpty<T(!new)>(p: T -> bool, s: seq<T>)
    ensures Where(p, s) == [] <==> forall x :: x in s ==> !p(x)
  {
    WhereIn(p, s);
    if Where(p, s) != [] {
      assert Where(p, s)[0] in Where(p, s);
    }
  }

  lemma CleanKept(me: Identity, review: Review, net: nat -> Reply, s: Site)
    requires Proper(s) && Clean(me, s) && Fair(review)
    ensures Clean(me, Published(me, review, net, s).0)
  {
    var t := Published(me, review, net, s).0;
    var twoSummaries := (c: Comment) => OwnSummary(me, Deep, c) && OwnSummary(me, Automatic, c);
    var twoInlines := (c: Comment) => OwnInline(me, Deep, c) && OwnInline(me, Automatic, c);
    forall n: nat
      ensures !Contains(SummaryBody(review, n), SummaryMarker(Other(review.scope)))
    {
      SummaryMarks(review, n, Other(review.scope));
    }
    forall text | text in review.inlineTexts
      ensures !Contains(InlineBody(review.scope, text), InlineMarker(Other(review.scope)))
    {
      InlineMarks(review.scope, text, Other(review.scope));
    }
    PublishKeepsIssue(me, review, net, s, twoSummaries);
    PublishKeepsReview(me, review, net, s, twoInlines);
    WhereEmpty(twoSummaries, s.issue);
    WhereEmpty(twoSummaries, t.issue);
    WhereEmpty(twoInlines, s.review);
    WhereEmpty(twoInlines, t.review);
  }

  /** What happens on a pull request: a review is published, or another App or a person comments, in
      the conversation or on a line. */
  datatype Step =
    | Publish(review: Review)
    | IssueComment(app: Option<string>, body: string)
    | ReviewComment(app: Option<string>, body: string)

  /** The commenter is not the service, and the texts of reviews are fair. */
  ghost predicate FairStep(me: Identity, step: Step) {
    if step.Publish? then Fair(step.review) else !IsOwn(me, Comment(0, step.app, step.body))
  }

  function After(me: Identity, step: Step, net: nat -> Reply, s: Site): Site {
    match step
    case Publish(review) => Published(me, review, net, s).0
    case IssueComment(app, body) => s.(issue := s.issue + [Comment(s.nextId, app, body)], nextId := s.nextId + 1)
    case ReviewComment(app, body) => s.(review := s.review + [Comment(s.nextId, app, body)], nextId := s.nextId + 1)
  }

  function AfterAll(me: Identity, steps: seq<Step>, net: nat -> Reply, s: Site): Site {
    if steps == [] then s else After(me, steps[|steps| - 1], net, AfterAll(me, steps[..|steps| - 1], net, s))
  }

  /** The last review of a scope. */
  function LastReview(scope: Scope, steps: seq<Step>): Option<Review> {
    if steps == [] then None
    else
      var last := steps[|steps| - 1];
      if last.Publish? && last.review.scope == scope then Some(last.review) else LastReview(scope, steps[..|steps| - 1])
  }

  /** Authors and texts, as they came. */
  function IssueArrivals(steps: seq<Step>): seq<(Option<string>, string)> {
    if steps == [] then []
    else
      var last := steps[|steps| - 1];
      IssueArrivals(steps[..|steps| - 1]) + if last.IssueComment? then [(last.app, last.body)] else []
  }

  function ReviewArrivals(steps: seq<Step>): seq<(Option<string>, string)> {
    if steps == [] then []
    else
      var last := steps[|steps| - 1];
      ReviewArrivals(steps[..|steps| - 1]) + if last.ReviewComment? then [(last.app, last.body)] else []
  }

  function Contents(comments: seq<Comment>): seq<(Option<string>, string)> {
    Each((c: Comment) => (c.app, c.body), comments)
  }

  /** Comments that were there are still there as they were, and new ones have come after them. */
  ghost predicate GrownBy(before: seq<Comment>, after: seq<Comment>, arrivals: seq<(Option<string>, string)>) {
    before <= after && Contents(after) == Contents(before) + arrivals
  }

  function Bodies(comments: seq<Comment>): seq<string> {
    Each((c: Comment) => c.body, comments)
  }

  /** One own summary at most in every scope. */
  ghost predicate AtMostOne(me: Identity, s: Site) {
    forall scope :: |OwnSummaries(me, scope, s)| <= 1
  }

  /** The own comments of the scope are those of the review, or as before if there was none. */
  ghost predicate Shows(me: Identity, scope: Scope, review: Option<Review>, s: Site, t: Site) {
    match review
    case None =>
      && OwnSummaries(me, scope, t) == OwnSummaries(me, scope, s)
      && OwnInlines(me, scope, t) == OwnInlines(me, scope, s)
    case Some(r) =>
      && Bodies(OwnSummaries(me, scope, t)) == [SummaryBody(r, |r.inlineTexts|)]
      && Bodies(OwnInlines(me, scope, t)) == InlineBodies(r)
  }

  lemma OnePublish(me: Identity, review: Review, net: nat -> Reply, s: Site, scope: Scope)
    requires Recognizes(me) && AllDone(net) && Proper(s) && Clean(me, s) && Fair(review) && AtMostOne(me, s)
    ensures var t := Published(me, review, net, s).0;
            if scope == review.scope then Shows(me, scope, Some(review), s, t) else Shows(me, scope, None, s, t)
  {
    var t := Published(me, review, net, s).0;
    if scope == review.scope {
      SummaryReplaced(me, review, net, s);
      InlinesReplaced(me, review, net, s);
      assert Bodies(Fresh(me, InlineBodies(review), s.nextId)) == InlineBodies(review);
    } else {
      OtherScopeUntouched(me, review, net, s);
    }
  }

  lemma ShowsNext(me: Identity, scope: Scope, last: Option<Review>, s: Site, t: Site, u: Site)
    ensures Shows(me, scope, last, s, t) && Shows(me, scope, None, t, u) ==> Shows(me, scope, last, s, u)
  {
  }

  lemma ShowsOne(me: Identity, scope: Scope, review: Option<Review>, s: Site, t: Site)
    requires |OwnSummaries(me, scope, s)| <= 1
    ensures Shows(me, scope, review, s, t) ==> |OwnSummaries(me, scope, t)| <= 1
  {
  }

  /** What a run from s leaves in t: every scope shows exactly what its last review said, in one
      summary comment and that review's inline comments; the comments of others are as they were, and
      after them those that have come. */
  ghost predicate ShowsLastReviews(me: Identity, steps: seq<Step>, s: Site, t: Site) {
    && Proper(t) && Clean(me, t) && AtMostOne(me, t)
    && (forall scope :: Shows(me, scope, LastReview(scope, steps), s, t))
    && GrownBy(Foreign(me, s.issue), Foreign(me, t.issue), IssueArrivals(steps))
    && GrownBy(Foreign(me, s.review), Foreign(me, t.review), ReviewArrivals(steps))
  }

  lemma ScopeNext(me: Identity, steps: seq<Step>, review: Review, net: nat -> Reply, s: Site, t: Site, scope: Scope)
    requires Recognizes(me) && AllDone(net) && steps != [] && steps[|steps| - 1] == Publish(review) && Fair(review)
    ensures ShowsLastReviews(me, steps[..|steps| - 1], s, t) ==>
              && Shows(me, scope, LastReview(scope, steps), s, Published(me, review, net, t).0)
              && |OwnSummaries(me, scope, Published(me, review, net, t).0)| <= 1
  {
    if ShowsLastReviews(me, steps[..|steps| - 1], s, t) {
      var before := steps[..|steps| - 1];
      var u := Published(me, review, net, t).0;
      assert Shows(me, scope, LastReview(scope, before), s, t);
      OnePublish(me, review, net, t, scope);
      if review.scope == scope {
        ShowsOne(me, scope, Some(review), t, u);
      } else {
        ShowsNext(me, scope, LastReview(scope, before), s, t, u);
        ShowsOne(me, scope, None, t, u);
      }
    }
  }

  lemma GrownByNone(before: seq<Comment>, after: seq<Comment>, arrivals: seq<(Option<string>, string)>)
    ensures GrownBy(before, after, arrivals) ==> GrownBy(before, after, arrivals + [])
  {
    assert arrivals + [] == arrivals;
  }

  lemma GrownByOne(before: seq<Comment>, after: seq<Comment>, arrivals: seq<(Option<string>, string)>, c: Comment)
    ensures GrownBy(before, after, arrivals) ==> GrownBy(before, after + [c], arrivals + [(c.app, c.body)])
  {
    assert Contents(after + [c]) == Contents(after) + [(c.app, c.body)];
  }

  lemma PublishStep(me: Identity, steps: seq<Step>, review: Review, net: nat -> Reply, s: Site, t: Site)
    requires Recognizes(me) && AllDone(net) && steps != [] && steps[|steps| - 1] == Publish(review) && Fair(review)
    ensures ShowsLastReviews(me, steps[..|steps| - 1], s, t) ==>
              ShowsLastReviews(me, steps, s, Published(me, review, net, t).0)
  {
    if ShowsLastReviews(me, steps[..|steps| - 1], s, t) {
      PublishedProper(me, review, net, t);
      CleanKept(me, review, net, t);
      OthersUntouched(me, review, net, t);
      GrownByNone(Foreign(me, s.issue), Foreign(me, t.issue), IssueArrivals(steps[..|steps| - 1]));
      GrownByNone(Foreign(me, s.review), Foreign(me, t.review), ReviewArrivals(steps[..|steps| - 1]));
      forall scope
        ensures Shows(me, scope, LastReview(scope, steps), s, Published(me, review, net, t).0)
        ensures |OwnSummaries(me, scope, Published(me, review, net, t).0)| <= 1
      {
        ScopeNext(me, steps, review, net, s, t, scope);
      }
    }
  }

  lemma ArrivalProper(me: Identity, step: Step, net: nat -> Reply, t: Site)
    requires !step.Publish? && FairStep(me, step)
    ensures Proper(t) && Clean(me, t) ==> Proper(After(me, step, net, t)) && Clean(me, After(me, step, net, t))
  {
  }

  /** Another's comment is none of the own ones, and one more of the others. */
  lemma ArrivalIsForeign(me: Identity, step: Step, net: nat -> Reply, t: Site)
    requires !step.Publish? && FairStep(me, step)
    ensures var u, c := After(me, step, net, t), Comment(t.nextId, step.app, step.body);
            && (forall scope :: Shows(me, scope, None, t, u))
            && Foreign(me, u.issue) == Foreign(me, t.issue) + (if step.IssueComment? then [c] else [])
            && Foreign(me, u.review) == Foreign(me, t.review) + (if step.ReviewComment? then [c] else [])
  {
    var c := Comment(t.nextId, step.app, step.body);
    OneMore((d: Comment) => !IsOwn(me, d), t.issue, c);
    OneMore((d: Comment) => !IsOwn(me, d), t.review, c);
    forall scope
      ensures Shows(me, scope, None, t, After(me, step, net, t))
    {
      OneMore((d: Comment) => OwnSummary(me, scope, d), t.issue, c);
      OneMore((d: Comment) => OwnInline(me, scope, d), t.review, c);
    }
  }

  lemma OneMore(p: Comment -> bool, comments: seq<Comment>, c: Comment)
    ensures Where(p, comments + [c]) == Where(p, comments) + (if p(c) then [c] else [])
    ensures !p(c) ==> Where(p, comments + [c]) == Where(p, comments)
  {
    assert (comments + [c])[..|comments|] == comments;
  }

  lemma ArrivalStep(me: Identity, steps: seq<Step>, net: nat -> Reply, s: Site, t: Site)
    requires steps != [] && !steps[|steps| - 1].Publish? && FairStep(me, steps[|steps| - 1])
    ensures ShowsLastReviews(me, steps[..|steps| - 1], s, t) ==>
              ShowsLastReviews(me, steps, s, After(me, steps[|steps| - 1], net, t))
  {
    if ShowsLastReviews(me, steps[..|steps| - 1], s, t) {
      var before, last := steps[..|steps| - 1], steps[|steps| - 1];
      var u, c := After(me, last, net, t), Comment(t.nextId, last.app, last.body);
      ArrivalProper(me, last, net, t);
      ArrivalIsForeign(me, last, net, t);
      forall scope
        ensures Shows(me, scope, LastReview(scope, steps), s, u) && |OwnSummaries(me, scope, u)| <= 1
      {
        assert Shows(me, scope, LastReview(scope, before), s, t) && Shows(me, scope, None, t, u);
        ShowsNext(me, scope, LastReview(scope, before), s, t, u);
        ShowsOne(me, scope, None, t, u);
      }
      GrownByOne(Foreign(me, s.issue), Foreign(me, t.issue), IssueArrivals(before), c);
      GrownByOne(Foreign(me, s.review), Foreign(me, t.review), ReviewArrivals(before), c);
      GrownByNone(Foreign(me, s.issue), Foreign(me, t.issue), IssueArrivals(before));
      GrownByNone(Foreign(me, s.review), Foreign(me, t.review), ReviewArrivals(before));
    }
  }

  /** Over any run of reviews whose calls succeed, with any comments of others between them, every scope
      shows exactly what its last review said, and the others' comments are all there, untouched. */
  lemma {:induction false} RunShowsLastReviews(me: Identity, steps: seq<Step>, net: nat -> Reply, s: Site)
    requires Recognizes(me) && AllDone(net) && Proper(s) && Clean(me, s) && AtMostOne(me, s)
    requires forall step :: step in steps ==> FairStep(me, step)
    ensures ShowsLastReviews(me, steps, s, AfterAll(me, steps, net, s))
  {
    if steps == [] {
      assert Contents(Foreign(me, s.issue)) + [] == Contents(Foreign(me, s.issue));
      assert Contents(Foreign(me, s.review)) + [] == Contents(Foreign(me, s.review));
    } else {
      var before, last := steps[..|steps| - 1], steps[|steps| - 1];
      assert FairStep(me, last);
      RunShowsLastReviews(me, before, net, s);
      if last.Publish? {
        PublishStep(me, steps, last.review, net, s, AfterAll(me, before, net, s));
      } else {
        ArrivalStep(me, steps, net, s, AfterAll(me, before, net, s));
      }
    }
  }

  /** A pull request without comments. */
  const NO_COMMENTS := Site([], [], 1, 0, false)

  lemma UnrecognizedAdds(me: Identity, review: Review, net: nat -> Reply, s: Site)
    requires !Recognizes(me) && AllDone(net) && Proper(s)
    requires forall c :: c in s.issue ==> !IsOwn(me, c) && c.app == me.actual
    ensures var t := Published(me, review, net, s).0;
            && Proper(t) && |t.issue| == |s.issue| + 1
            && forall c :: c in t.issue ==> !IsOwn(me, c) && c.app == me.actual
  {
    var inline, count := PublishedParts(me, review, net, s);
    PublishedProper(me, review, net, s);
    var t, found := UpsertedForm(me, review.scope, net, inline, SummaryBody(review, count));
    assert found.None?;
  }

  /** Two reviews of the same scope on a new pull request leave one summary comment if and only if the
      service runs as an App, with the ID that GitHub gives its comments. */
  lemma OneCommentIffRecognized(me: Identity, first: Review, second: Review, net: nat -> Reply)
    requires AllDone(net) && first.scope == second.scope
    ensures |Published(me, second, net, Published(me, first, net, NO_COMMENTS).0).0.issue| == 1 <==> Recognizes(me)
  {
    var s := NO_COMMENTS;
    var t := Published(me, first, net, s).0;
    var u := Published(me, second, net, t).0;
    if Recognizes(me) {
      PublishedProper(me, first, net, s);
      SummaryReplaced(me, first, net, s);
      SummaryReplaced(me, second, net, t);
      SummaryOnly(me, first, net, s);
      SummaryOnly(me, second, net, t);
    } else {
      UnrecognizedAdds(me, first, net, s);
      UnrecognizedAdds(me, second, net, t);
    }
  }

  /** On a pull request with no other comments, all comments are own summaries of the scope. */
  lemma SummaryOnly(me: Identity, review: Review, net: nat -> Reply, s: Site)
    requires Recognizes(me) && Proper(s)
    requires forall c :: c in s.issue ==> OwnSummary(me, review.scope, c)
    ensures forall c :: c in Published(me, review, net, s).0.issue ==> OwnSummary(me, review.scope, c)
    ensures OwnSummaries(me, review.scope, Published(me, review, net, s).0) == Published(me, review, net, s).0.issue
  {
    var not := (c: Comment) => !OwnSummary(me, review.scope, c);
    forall n: nat
      ensures Contains(SummaryBody(review, n), SummaryMarker(review.scope))
    {
      SummaryMarks(review, n, review.scope);
    }
    PublishKeepsIssue(me, review, net, s, not);
    WhereEmpty(not, s.issue);
    var t := Published(me, review, net, s).0;
    WhereEmpty(not, t.issue);
    forall c | c in t.issue
      ensures OwnSummary(me, review.scope, c)
    {
      assert !not(c);
    }
    WhereAll((c: Comment) => OwnSummary(me, review.scope, c), t.issue);
  }

  /** Without fairness the other scope is not safe: an own inline comment that quotes the marker of the
      scope being published is deleted, whichever scope it is of. */
  lemma QuotingCommentIsDeleted(me: Identity, review: Review, net: nat -> Reply, s: Site, c: Comment)
    requires Recognizes(me) && AllDone(net) && Proper(s)
    requires c in s.review && IsOwn(me, c) && Contains(c.body, InlineMarker(review.scope))
    ensures c !in Published(me, review, net, s).0.review
  {
    InlinesReplaced(me, review, net, s);
    var own := (c: Comment) => OwnInline(me, review.scope, c);
    WhereIn(own, Published(me, review, net, s).0.review);
    var posted := Fresh(me, InlineBodies(review), s.nextId);
    assert forall d :: d in posted ==> d.id >= s.nextId;
  }
}
