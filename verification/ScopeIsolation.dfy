/** When publishing in one review scope leaves the own comments of the other scope alone: the exact
    condition, for the inline comments and for the summaries. */
module ScopeIsolation {
  import opened Lists
  import opened Publisher
  import opened Text

  // ---------------------------------------------------------------- inline comments

  /** No own inline comment of the other scope carries the published marker, and no text to be posted
      carries the marker of the other scope. */
  ghost predicate InlinesApart(me: Identity, review: Review, s: Site) {
    && (forall c :: c in s.review && OwnInline(me, Other(review.scope), c) ==>
          !Contains(c.body, InlineMarker(review.scope)))
    && (forall text :: text in review.inlineTexts ==> !Contains(text, InlineMarker(Other(review.scope))))
  }

  ghost predicate InlinesKept(me: Identity, review: Review, net: nat -> Reply, s: Site) {
    OwnInlines(me, Other(review.scope), Published(me, review, net, s).0) == OwnInlines(me, Other(review.scope), s)
  }

  lemma ApartKeepsInlines(me: Identity, review: Review, net: nat -> Reply, s: Site)
    requires Proper(s) && InlinesApart(me, review, s)
    ensures InlinesKept(me, review, net, s)
  {
    var other := Other(review.scope);
    forall text | text in review.inlineTexts
      ensures !Contains(InlineBody(review.scope, text), InlineMarker(other))
    {
      InlineMarks(review.scope, text, other);
    }
    PublishKeepsReview(me, review, net, s, (c: Comment) => OwnInline(me, other, c));
  }

  lemma InOwnInlines(me: Identity, scope: Scope, s: Site, c: Comment)
    ensures c in OwnInlines(me, scope, s) <==> c in s.review && OwnInline(me, scope, c)
  {
    WhereIn((d: Comment) => OwnInline(me, scope, d), s.review);
  }

  /** An own comment with the published marker is deleted. */
  lemma MarkedIsLost(me: Identity, review: Review, net: nat -> Reply, s: Site, c: Comment)
    requires Recognizes(me) && AllDone(net) && Proper(s)
    requires c in s.review && OwnInline(me, Other(review.scope), c) && Contains(c.body, InlineMarker(review.scope))
    ensures !InlinesKept(me, review, net, s)
  {
    QuotingCommentIsDeleted(me, review, net, s, c);
    InOwnInlines(me, Other(review.scope), s, c);
    InOwnInlines(me, Other(review.scope), Published(me, review, net, s).0, c);
  }

  /** A posted text with the other marker adds an own comment to the other scope. */
  lemma QuotingIsAdded(me: Identity, review: Review, net: nat -> Reply, s: Site, i: nat)
    requires Recognizes(me) && AllDone(net) && Proper(s)
    requires i < |review.inlineTexts| && Contains(review.inlineTexts[i], InlineMarker(Other(review.scope)))
    ensures !InlinesKept(me, review, net, s)
  {
    var after, other := Published(me, review, net, s).0, Other(review.scope);
    var c := Fresh(me, InlineBodies(review), s.nextId)[i];
    InlinesReplaced(me, review, net, s);
    InlineMarks(review.scope, review.inlineTexts[i], other);
    InOwnInlines(me, review.scope, after, c);
    InOwnInlines(me, other, after, c);
    InOwnInlines(me, other, s, c);
  }

  /** With successful calls the own inline comments of the other scope are kept if and only if the
      markers are apart. */
  lemma InlineIsolationDone(me: Identity, review: Review, net: nat -> Reply, s: Site)
    requires Recognizes(me) && AllDone(net) && Proper(s)
    ensures InlinesKept(me, review, net, s) <==> InlinesApart(me, review, s)
  {
    if InlinesApart(me, review, s) {
      ApartKeepsInlines(me, review, net, s);
    } else if c :| c in s.review && OwnInline(me, Other(review.scope), c)
                   && Contains(c.body, InlineMarker(review.scope)) {
      MarkedIsLost(me, review, net, s, c);
    } else {
      var text :| text in review.inlineTexts && Contains(text, InlineMarker(Other(review.scope)));
      var i :| 0 <= i < |review.inlineTexts| && review.inlineTexts[i] == text;
      QuotingIsAdded(me, review, net, s, i);
    }
  }

  /** They are kept whatever call fails, and in whichever way, under the same condition. */
  lemma InlineIsolation(me: Identity, review: Review, s: Site)
    requires Recognizes(me) && Proper(s)
    ensures (forall net :: InlinesKept(me, review, net, s)) <==> InlinesApart(me, review, s)
  {
    InlineIsolationDone(me, review, (k: nat) => Done, s);
    if InlinesApart(me, review, s) {
      forall net
        ensures InlinesKept(me, review, net, s)
      {
        ApartKeepsInlines(me, review, net, s);
      }
    }
  }

  // ---------------------------------------------------------------- summaries

  ghost predicate SummariesKept(me: Identity, review: Review, net: nat -> Reply, s: Site) {
    OwnSummaries(me, Other(review.scope), Published(me, review, net, s).0) == OwnSummaries(me, Other(review.scope), s)
  }

  /** The comment that would be updated is an own summary of the other scope as well. */
  predicate UpdatesOther(me: Identity, review: Review, s: Site) {
    var found := LastToUpdate(me, review.scope, s.issue);
    found.Some? && OwnSummary(me, Other(review.scope), found.value)
  }

  /** The summary quotes the marker of the other scope when it counts n inline comments. */
  predicate Quotes(review: Review, n: nat) {
    Contains(review.summary(n), SummaryMarker(Other(review.scope)))
  }

  /** The comment to be updated is of one scope only, and the summary does not quote the other marker,
      whether it counts the inline comments or, where these could not be posted, none. */
  predicate SummariesApart(me: Identity, review: Review, s: Site) {
    !UpdatesOther(me, review, s) && !Quotes(review, 0) && !Quotes(review, |review.inlineTexts|)
  }

  lemma InOwnSummaries(me: Identity, scope: Scope, s: Site, c: Comment)
    ensures c in OwnSummaries(me, scope, s) <==> c in s.issue && OwnSummary(me, scope, c)
  {
    WhereIn((d: Comment) => OwnSummary(me, scope, d), s.issue);
  }

  /** A publish up to its summary: the issue comments are as before, and the summary counts all inline
      comments or none. */
  lemma BeforeSummary(me: Identity, review: Review, net: nat -> Reply, s: Site) returns (t: Site, count: nat)
    requires Proper(s)
    ensures Proper(t) && t.issue == s.issue && (count == 0 || count == |review.inlineTexts|)
    ensures Published(me, review, net, s) == Upserted(me, review.scope, net, t, SummaryBody(review, count))
    ensures AllDone(net) ==> !t.raised && count == |review.inlineTexts|
  {
    t, count := PublishedParts(me, review, net, s);
  }

  lemma ApartKeepsSummaries(me: Identity, review: Review, net: nat -> Reply, s: Site)
    requires Proper(s) && SummariesApart(me, review, s)
    ensures SummariesKept(me, review, net, s)
  {
    var other := Other(review.scope);
    var inline, count := BeforeSummary(me, review, net, s);
    var body, p := SummaryBody(review, count), (c: Comment) => OwnSummary(me, other, c);
    SummaryMarks(review, count, other);
    var t, found := UpsertedForm(me, review.scope, net, inline, body);
    if !t.raised && found.Some? {
      PatchedOrPostedKeeps(me, net, t, found.value, body, p);
    } else if !t.raised {
      PostKeeps(me, net(t.calls), t, body, p);
    }
  }

  /** Rewriting one comment with another text takes the old one away and brings a new one. */
  lemma RewritingReplaces(comments: seq<Comment>, prior: Comment, body: string)
    requires DistinctBy(CommentId, comments) && prior in comments
    ensures prior.body == body ==> Rewritten(comments, prior.id, body) == comments
    ensures prior.body != body ==> prior !in Rewritten(comments, prior.id, body)
    ensures prior.(body := body) in Rewritten(comments, prior.id, body)
    ensures prior.body != body ==> prior.(body := body) !in comments
  {
    RewrittenIs(comments, prior, body);
    var i :| 0 <= i < |comments| && comments[i] == prior;
    assert Rewritten(comments, prior.id, body)[i] == prior.(body := body);
    if prior.(body := body) in comments {
      SameKeySame(CommentId, comments, prior.(body := body), prior);
    }
  }

  /** What a successful publish does to the issue comments. */
  lemma DoneSummary(me: Identity, review: Review, net: nat -> Reply, s: Site) returns (posted: Comment)
    requires Recognizes(me) && AllDone(net) && Proper(s)
    ensures posted.app == me.actual && posted.body == SummaryBody(review, |review.inlineTexts|)
    ensures var found := LastToUpdate(me, review.scope, s.issue);
            Published(me, review, net, s).0.issue
            == if found.Some? then Rewritten(s.issue, found.value.id, posted.body) else s.issue + [posted]
  {
    var inline, count := BeforeSummary(me, review, net, s);
    var body := SummaryBody(review, count);
    var t, found := UpsertedForm(me, review.scope, net, inline, body);
    posted := Comment(inline.nextId, me.actual, body);
    assert !t.raised && net(t.calls) == Done && found == LastToUpdate(me, review.scope, s.issue);
  }

  /** One more comment, which belongs to the other scope if and only if it quotes its marker. */
  lemma PostingAdds(me: Identity, review: Review, s: Site, t: Site, posted: Comment, n: nat)
    requires Recognizes(me) && posted.app == me.actual && posted.body == SummaryBody(review, n)
    requires t.issue == s.issue + [posted]
    ensures OwnSummaries(me, Other(review.scope), t) == OwnSummaries(me, Other(review.scope), s) <==> !Quotes(review, n)
  {
    var other := Other(review.scope);
    OneMore((d: Comment) => OwnSummary(me, other, d), s.issue, posted);
    SummaryMarks(review, n, other);
  }

  /** One comment with another text: if that is no change at all, or it has no part in the other scope
      before or after. */
  lemma UpdatingChanges(me: Identity, review: Review, s: Site, t: Site, found: Comment, n: nat)
    requires Proper(s) && found in s.issue && IsOwn(me, found)
    requires t.issue == Rewritten(s.issue, found.id, SummaryBody(review, n))
    ensures OwnSummaries(me, Other(review.scope), t) == OwnSummaries(me, Other(review.scope), s)
       <==> found.body == SummaryBody(review, n) || (!OwnSummary(me, Other(review.scope), found) && !Quotes(review, n))
  {
    var other, body := Other(review.scope), SummaryBody(review, n);
    var updated := found.(body := body);
    SummaryMarks(review, n, other);
    RewritingReplaces(s.issue, found, body);
    InOwnSummaries(me, other, s, found);
    InOwnSummaries(me, other, t, found);
    InOwnSummaries(me, other, s, updated);
    InOwnSummaries(me, other, t, updated);
    if !OwnSummary(me, other, found) && !Quotes(review, n) {
      PatchKeeps(Done, s, found, body, (c: Comment) => OwnSummary(me, other, c));
    }
  }

  /** With successful calls the own summaries of the other scope are kept if and only if the summary does
      not quote their marker and the comment that is updated is none of them, or has this very text. */
  lemma SummaryIsolationDone(me: Identity, review: Review, net: nat -> Reply, s: Site)
    requires Recognizes(me) && AllDone(net) && Proper(s)
    ensures var found, n := LastToUpdate(me, review.scope, s.issue), |review.inlineTexts|;
            SummariesKept(me, review, net, s)
            <==> || (found.Some? && found.value.body == SummaryBody(review, n))
                 || (!UpdatesOther(me, review, s) && !Quotes(review, n))
  {
    var posted := DoneSummary(me, review, net, s);
    var found, after := LastToUpdate(me, review.scope, s.issue), Published(me, review, net, s).0;
    LastToUpdateIs(me, review.scope, s.issue);
    if found.Some? {
      UpdatingChanges(me, review, s, after, found.value, |review.inlineTexts|);
    } else {
      PostingAdds(me, review, s, after, posted, |review.inlineTexts|);
    }
  }

  /** Where every answer is lost, the inline comments are not counted and the summary is posted anew. */
  lemma AllLostPosts(me: Identity, review: Review, s: Site)
    requires Recognizes(me) && Proper(s)
    ensures SummariesKept(me, review, (k: nat) => Lost, s) <==> !Quotes(review, 0)
  {
    var net := (k: nat) => Lost;
    var inline, count := BeforeSummary(me, review, net, s);
    var t, found := UpsertedForm(me, review.scope, net, inline, SummaryBody(review, count));
    var posted := Comment(t.nextId, me.actual, SummaryBody(review, 0));
    assert Published(me, review, net, s).0.issue == s.issue + [posted];
    PostingAdds(me, review, s, Published(me, review, net, s).0, posted, 0);
  }

  /** Both listings are refused, and what is posted is accepted. */
  function ListingsRefused(calls: nat): nat -> Reply {
    (k: nat) => if k == calls + 1 || k == calls + 3 then Done else Refused
  }

  lemma RefusedPosts(me: Identity, review: Review, s: Site)
    requires Recognizes(me) && Proper(s) && review.inlineTexts != []
    ensures SummariesKept(me, review, ListingsRefused(s.calls), s) <==> !Quotes(review, |review.inlineTexts|)
  {
    var net, n := ListingsRefused(s.calls), |review.inlineTexts|;
    var inline, count := BeforeSummary(me, review, net, s);
    var t, found := UpsertedForm(me, review.scope, net, inline, SummaryBody(review, count));
    var posted := Comment(t.nextId, me.actual, SummaryBody(review, n));
    assert Published(me, review, net, s).0.issue == s.issue + [posted];
    PostingAdds(me, review, s, Published(me, review, net, s).0, posted, n);
  }

  lemma DoneUpdatesOther(me: Identity, review: Review, s: Site)
    requires Recognizes(me) && Proper(s)
    requires UpdatesOther(me, review, s) && !Quotes(review, |review.inlineTexts|)
    ensures !SummariesKept(me, review, (k: nat) => Done, s)
  {
    SummaryIsolationDone(me, review, (k: nat) => Done, s);
    SummaryMarks(review, |review.inlineTexts|, Other(review.scope));
  }

  /** Where they are not apart, some answers change the other scope. */
  lemma NotApartChanges(me: Identity, review: Review, s: Site) returns (net: nat -> Reply)
    requires Recognizes(me) && Proper(s) && !SummariesApart(me, review, s)
    ensures !SummariesKept(me, review, net, s)
  {
    if Quotes(review, 0) {
      net := (k: nat) => Lost;
      AllLostPosts(me, review, s);
    } else if Quotes(review, |review.inlineTexts|) {
      net := ListingsRefused(s.calls);
      RefusedPosts(me, review, s);
    } else {
      net := (k: nat) => Done;
      DoneUpdatesOther(me, review, s);
    }
  }

  /** They are kept whatever call fails, and in whichever way, if and only if the summaries are apart. */
  lemma SummaryIsolation(me: Identity, review: Review, s: Site)
    requires Recognizes(me) && Proper(s)
    ensures (forall net :: SummariesKept(me, review, net, s)) <==> SummariesApart(me, review, s)
  {
    if SummariesApart(me, review, s) {
      forall net
        ensures SummariesKept(me, review, net, s)
      {
        ApartKeepsSummaries(me, review, net, s);
      }
    } else {
      var net := NotApartChanges(me, review, s);
    }
  }

  /** Whatever call fails, publishing in one scope leaves all own comments of the other scope as they are
      if and only if the markers of both scopes are apart, in its comments and in the texts. */
  lemma ScopesAreIsolated(me: Identity, review: Review, s: Site)
    requires Recognizes(me) && Proper(s)
    ensures (forall net :: InlinesKept(me, review, net, s) && SummariesKept(me, review, net, s))
       <==> InlinesApart(me, review, s) && SummariesApart(me, review, s)
  {
    InlineIsolation(me, review, s);
    SummaryIsolation(me, review, s);
  }
}
