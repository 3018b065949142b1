/** Which errors an audit reports: each one exactly when a report, a review or a walked chain deserves it. */
module AuditErrors {
  import opened Options
  import opened AuditPolicy

  // ------------------------------------------------------------------------------------------
  // What deserves an error.

  /** The report is not one of the audited shape, or its count of findings is another than it lists. */
  ghost predicate Faulty(report: Report) {
    || !report.versionTwo || report.error || report.vulnerabilities.None?
    || report.total != Some(|report.vulnerabilities.value.keys|)
  }

  ghost predicate Lacks(review: Option<Review>) {
    || review.None? || review.value.nodes.None?
    || (review.value.package.Some? ==> review.value.package.value == "")
    || (review.value.advisory.Some? ==> review.value.advisory.value == "")
  }

  ghost predicate Overdue(review: Review, now: int) {
    review.expires.Some? ==> review.expires.value <= now
  }

  /** The review is incomplete, or an earlier complete one is of the same advisory. */
  ghost predicate Bad(reviews: seq<Option<Review>>, i: nat)
    requires i < |reviews|
  {
    Lacks(reviews[i]) ||
    exists j :: 0 <= j < i && !Lacks(reviews[j]) && Identity(reviews[j].value) == Identity(reviews[i].value)
  }

  /** The finding cites a cause and lists a node, and is on no earlier place of its chain. */
  ghost predicate Sound(a: Audit, above: seq<string>, name: string) {
    ViasOf(a, name) != [] && NodesOf(a, name) != [] && name !in above
  }

  /** The check comes to the end of `above + q` from `above`. */
  ghost predicate Walked(a: Audit, above: seq<string>, q: seq<string>) {
    IsChain(a, q) && forall i :: 0 <= i < |q| - 1 ==> Sound(a, above + q[..i], q[i])
  }

  /** The error is due for the end of the chain: an unsound finding, an advisory without a review, or a node
      on the chain that the review of a cited advisory does not cover. */
  ghost predicate Shows(a: Audit, above: seq<string>, name: string, e: AuditError) {
    if !Sound(a, above, name) then e == IncompleteChain(name)
    else exists url :: Advisory(url) in ViasOf(a, name) && Blames(a, above + [name], name, url, e)
  }

  ghost predicate Blames(a: Audit, chain: seq<string>, name: string, url: Option<string>, e: AuditError) {
    var review := FindReview(ReviewsOf(a), name, url);
    match e
    case UnreviewedAdvisory(what) => review.None? && what == (if url.Some? then url.value else name)
    case UnreviewedPath(node) => node in NodesOn(a, chain) && !Covers(a, review, node)
    case _ => false
  }

  ghost predicate FoundThrough(a: Audit, above: seq<string>, name: string, e: AuditError) {
    exists q :: FoundAt(a, above, name, q, e)
  }

  ghost predicate FoundAt(a: Audit, above: seq<string>, name: string, q: seq<string>, e: AuditError) {
    Walked(a, above, q) && q[0] == name && Shows(a, above + q[..|q| - 1], q[|q| - 1], e)
  }

  // ------------------------------------------------------------------------------------------
  // Chains.

  lemma {:induction false} NodeErrorsExactly(a: Audit, review: Option<Review>, nodes: seq<string>, e: AuditError)
    ensures e in NodeErrors(a, review, nodes) <==>
              e.UnreviewedPath? && e.node in nodes && !Covers(a, review, e.node)
  {
    if nodes != [] {
      NodeErrorsExactly(a, review, nodes[..|nodes| - 1], e);
      assert nodes == nodes[..|nodes| - 1] + [nodes[|nodes| - 1]];
    }
  }

  lemma AdvisoryErrorsExactly(a: Audit, chain: seq<string>, name: string, url: Option<string>, e: AuditError)
    ensures e in AdvisoryErrors(a, chain, name, url) <==> Blames(a, chain, name, url, e)
  {
    hide Covers, FindReview, NodesOn;
    NodeErrorsExactly(a, FindReview(ReviewsOf(a), name, url), NodesOn(a, chain), e);
  }

  ghost predicate FromVia(a: Audit, chain: seq<string>, name: string, via: Via, e: AuditError) {
    match via
    case Named(next) => e in ChainErrors(a, chain, next)
    case Advisory(url) => Blames(a, chain, name, url, e)
  }

  lemma {:induction false} ViaErrorsExactly(
      a: Audit, chain: seq<string>, name: string, vias: seq<Via>, e: AuditError)
    ensures e in ViaErrors(a, chain, name, vias) <==> exists via :: via in vias && FromVia(a, chain, name, via, e)
    decreases |vias|
  {
    hide ChainErrors, Blames, AdvisoryErrors;
    if vias != [] {
      var init, last := vias[..|vias| - 1], vias[|vias| - 1];
      ViaErrorsExactly(a, chain, name, init, e);
      if last.Advisory? { AdvisoryErrorsExactly(a, chain, name, last.url, e); }
      assert vias == init + [last];
      LastViaErrors(a, chain, name, vias, e);
    }
  }

  lemma LastViaErrors(a: Audit, chain: seq<string>, name: string, vias: seq<Via>, e: AuditError)
    requires vias != []
    ensures e in ViaErrors(a, chain, name, vias) <==>
              || e in ViaErrors(a, chain, name, vias[..|vias| - 1])
              || FromVia(a, chain, name, vias[|vias| - 1], e)
  {
    hide ChainErrors, Blames, AdvisoryErrors;
    var last := vias[|vias| - 1];
    if last.Advisory? { AdvisoryErrorsExactly(a, chain, name, last.url, e); }
  }

  lemma SoundExactly(a: Audit, above: seq<string>, name: string)
    ensures Sound(a, above, name) <==> CompleteFinding(a, name) && name !in above
  {
  }

  /** The recursive check reports an error exactly when a chain walked through `name` shows it. */
  lemma {:induction false} ChainErrorsExactly(a: Audit, above: seq<string>, name: string, e: AuditError)
    ensures e in ChainErrors(a, above, name) <==> FoundThrough(a, above, name, e)
    decreases |Full(a).Keys - NamesIn(above)|
  {
    hide ChainErrors, ViaErrors, FoundThrough, Shows, CompleteFinding, Sound, Blames;
    var chain := above + [name];
    ChainUnfolds(a, above, name);
    ChainIs(a, above, name);
    SoundExactly(a, above, name);
    FoundUnfolds(a, above, name, e);
    if Sound(a, above, name) {
      ViaErrorsExactly(a, chain, name, ViasOf(a, name), e);
      forall next ensures e in ChainErrors(a, chain, next) <==> FoundThrough(a, chain, next, e) {
        ChainErrorsExactly(a, chain, next, e);
      }
    }
  }

  /** A chain through `name` is `name` alone or goes on through one of its causes. */
  lemma FoundUnfolds(a: Audit, above: seq<string>, name: string, e: AuditError)
    ensures !Sound(a, above, name) ==> (FoundThrough(a, above, name, e) <==> e == IncompleteChain(name))
    ensures Sound(a, above, name) ==>
              (FoundThrough(a, above, name, e) <==>
               || (exists url :: Advisory(url) in ViasOf(a, name) && Blames(a, above + [name], name, url, e))
               || exists next :: Named(next) in ViasOf(a, name) && FoundThrough(a, above + [name], next, e))
  {
    hide Sound, Blames, ViasOf;
    var chain := above + [name];
    assert above + [name][..0] == above;
    if Shows(a, above, name, e) { assert FoundAt(a, above, name, [name], e); }
    if FoundThrough(a, above, name, e) {
      var q :| FoundAt(a, above, name, q, e);
      if |q| == 1 {
        assert above + q[..0] == above;
        assert Shows(a, above, name, e);
      } else {
        FoundBelow(a, above, name, q, e);
      }
    }
    if Sound(a, above, name) {
      forall next | Named(next) in ViasOf(a, name) && FoundThrough(a, chain, next, e)
        ensures FoundThrough(a, above, name, e)
      {
        var q :| FoundAt(a, chain, next, q, e);
        FoundAbove(a, above, name, q, e);
      }
    }
  }

  lemma FoundBelow(a: Audit, above: seq<string>, name: string, q: seq<string>, e: AuditError)
    requires FoundAt(a, above, name, q, e) && |q| > 1
    ensures Sound(a, above, name) && Named(q[1]) in ViasOf(a, name)
    ensures FoundAt(a, above + [name], q[1], q[1..], e)
  {
    hide Sound, Shows, ViasOf;
    assert Sound(a, above + q[..0], q[0]);
    assert above + q[..0] == above;
    assert Named(q[0 + 1]) in ViasOf(a, q[0]);
    var rest, chain := q[1..], above + [name];
    forall i | 0 <= i < |rest| - 1
      ensures Named(rest[i + 1]) in ViasOf(a, rest[i]) && Sound(a, chain + rest[..i], rest[i])
    {
      assert rest[i] == q[i + 1] && rest[i + 1] == q[(i + 1) + 1];
      assert chain + rest[..i] == above + q[..i + 1];
    }
    assert chain + rest[..|rest| - 1] == above + q[..|q| - 1];
  }

  lemma FoundAbove(a: Audit, above: seq<string>, name: string, q: seq<string>, e: AuditError)
    requires q != [] && Sound(a, above, name) && Named(q[0]) in ViasOf(a, name)
    requires FoundAt(a, above + [name], q[0], q, e)
    ensures FoundAt(a, above, name, [name] + q, e)
  {
    hide Sound, Shows, ViasOf;
    var longer, chain := [name] + q, above + [name];
    forall i | 0 <= i < |longer| - 1
      ensures Named(longer[i + 1]) in ViasOf(a, longer[i]) && Sound(a, above + longer[..i], longer[i])
    {
      if i == 0 {
        assert above + longer[..0] == above;
      } else {
        assert longer[i] == q[i - 1] && longer[i + 1] == q[(i - 1) + 1];
        assert above + longer[..i] == chain + q[..i - 1];
      }
    }
    assert above + longer[..|longer| - 1] == chain + q[..|q| - 1];
  }

  lemma {:induction false} AllChainErrorsExactly(a: Audit, names: seq<string>, e: AuditError)
    ensures e in AllChainErrors(a, names) <==> exists name :: name in names && FoundThrough(a, [], name, e)
  {
    hide FoundThrough, ChainErrors;
    if names != [] {
      var n := |names| - 1;
      AllChainErrorsExactly(a, names[..n], e);
      ChainErrorsExactly(a, [], names[n], e);
      assert names == names[..n] + [names[n]];
    }
  }

  // ------------------------------------------------------------------------------------------
  // Reports and reviews.

  lemma FaultyExactly(report: Report)
    ensures Faulty(report) <==> !Complete(report)
  {
  }

  lemma {:induction false} RuntimeErrorsExactly(scope: string, names: seq<string>, e: AuditError)
    ensures e in RuntimeErrors(scope, names) <==> e.RuntimeAdvisory? && e.scope == scope && e.name in names
  {
    if names != [] {
      RuntimeErrorsExactly(scope, names[..|names| - 1], e);
      assert names == names[..|names| - 1] + [names[|names| - 1]];
    }
  }

  ghost predicate ReportDeserves(scope: string, report: Report, e: AuditError) {
    match e
    case IncompleteReport(s) => s == scope && Faulty(report)
    case RuntimeAdvisory(s, name) => s == scope && !Faulty(report) && name in report.vulnerabilities.value.keys
    case _ => false
  }

  lemma {:induction false} AllRuntimeErrorsExactly(reports: seq<(string, Report)>, e: AuditError)
    ensures e in AllRuntimeErrors(reports) <==>
              exists i :: 0 <= i < |reports| && ReportDeserves(reports[i].0, reports[i].1, e)
  {
    if reports != [] {
      var n := |reports| - 1;
      var (scope, report) := reports[n];
      AllRuntimeErrorsExactly(reports[..n], e);
      assert forall i :: 0 <= i < n ==> reports[..n][i] == reports[i];
      assert e in ReportErrors(scope, report) + RuntimeErrors(scope, FindingsOf(report).keys) <==>
             ReportDeserves(scope, report, e) by {
        RuntimeErrorsExactly(scope, FindingsOf(report).keys, e);
      }
    }
  }

  ghost predicate ReviewDeserves(reviews: seq<Option<Review>>, now: int, i: nat, e: AuditError)
    requires i < |reviews|
  {
    match e
    case BadReview => Bad(reviews, i)
    case ExpiredReview(package) =>
      !Lacks(reviews[i]) && reviews[i].value.package == Some(package) && Overdue(reviews[i].value, now)
    case _ => false
  }

  lemma {:induction false} ReviewErrorsExactly(reviews: seq<Option<Review>>, now: int, e: AuditError)
    ensures e in ReviewErrors(reviews, now) <==>
              exists i :: 0 <= i < |reviews| && ReviewDeserves(reviews, now, i, e)
  {
    hide ReviewDeserves;
    if reviews != [] {
      var n := |reviews| - 1;
      ReviewErrorsExactly(reviews[..n], now, e);
      forall i | 0 <= i < n ensures ReviewDeserves(reviews[..n], now, i, e) <==> ReviewDeserves(reviews, now, i, e) {
        EarlierReview(reviews, now, i, e);
      }
      LastReviewErrors(reviews, now, e);
    }
  }

  lemma EarlierReview(reviews: seq<Option<Review>>, now: int, i: nat, e: AuditError)
    requires i < |reviews| - 1
    ensures ReviewDeserves(reviews[..|reviews| - 1], now, i, e) <==> ReviewDeserves(reviews, now, i, e)
  {
    hide Lacks, Overdue, Identity;
    var init := reviews[..|reviews| - 1];
    assert forall j :: 0 <= j <= i ==> init[j] == reviews[j];
  }

  lemma LastReviewErrors(reviews: seq<Option<Review>>, now: int, e: AuditError)
    requires reviews != []
    ensures e in ReviewErrors(reviews, now) <==>
              || e in ReviewErrors(reviews[..|reviews| - 1], now)
              || ReviewDeserves(reviews, now, |reviews| - 1, e)
  {
    hide Identity, IdentitiesOf;
    var n := |reviews| - 1;
    assert reviews[n] == reviews[|reviews| - 1];
    if CompleteReview(reviews[n]) { IdentitiesAre(reviews[..n], Identity(reviews[n].value)); }
    assert forall j :: 0 <= j < n ==> reviews[..n][j] == reviews[j];
    assert forall j :: 0 <= j <= n ==> (Lacks(reviews[j]) <==> !CompleteReview(reviews[j]));
  }

  // ------------------------------------------------------------------------------------------
  // The whole audit.

  /** Why an audit must report the error. */
  ghost predicate Deserves(a: Audit, e: AuditError) {
    match e
    case IncompleteReport(scope) =>
      || (scope == "tooling" && Faulty(a.full))
      || exists i :: 0 <= i < |a.runtime| && ReportDeserves(a.runtime[i].0, a.runtime[i].1, e)
    case RuntimeAdvisory(_, _) =>
      exists i :: 0 <= i < |a.runtime| && ReportDeserves(a.runtime[i].0, a.runtime[i].1, e)
    case IncompletePolicy => a.reviews.None?
    case BadReview =>
      a.reviews.Some? && exists i :: 0 <= i < |a.reviews.value| && ReviewDeserves(a.reviews.value, a.now, i, e)
    case ExpiredReview(_) =>
      a.reviews.Some? && exists i :: 0 <= i < |a.reviews.value| && ReviewDeserves(a.reviews.value, a.now, i, e)
    case _ =>
      && a.reviews.Some? && !Faulty(a.full)
      && exists name :: name in a.full.vulnerabilities.value.keys && FoundThrough(a, [], name, e)
  }

  lemma {:induction false} DeduplicatedKeeps(errors: seq<AuditError>)
    ensures forall e :: e in Deduplicated(errors) <==> e in errors
    ensures forall i, j :: 0 <= i < j < |Deduplicated(errors)| ==> Deduplicated(errors)[i] != Deduplicated(errors)[j]
  {
    if errors != [] {
      DeduplicatedKeeps(errors[..|errors| - 1]);
      assert errors == errors[..|errors| - 1] + [errors[|errors| - 1]];
    }
  }

  /** Only these kinds come from chains. */
  lemma FoundKind(a: Audit, name: string, e: AuditError)
    requires FoundThrough(a, [], name, e)
    ensures e.IncompleteChain? || e.UnreviewedAdvisory? || e.UnreviewedPath?
  {
  }

  /** Every error is reported exactly when it is deserved, and a policy given, only once. */
  lemma ErrorsExactly(a: Audit, e: AuditError)
    ensures e in EvaluateErrors(a) <==> Deserves(a, e)
    ensures a.reviews.Some? ==>
              forall i, j :: 0 <= i < j < |EvaluateErrors(a)| ==> EvaluateErrors(a)[i] != EvaluateErrors(a)[j]
  {
    hide FoundThrough, ReviewErrors, AllChainErrors, AllRuntimeErrors, Deduplicated, Faulty, Complete, Bad, Lacks;
    FaultyExactly(a.full);
    AllRuntimeErrorsExactly(a.runtime, e);
    var before := AllRuntimeErrors(a.runtime) + ReportErrors("tooling", a.full);
    if a.reviews.Some? {
      ReviewErrorsExactly(a.reviews.value, a.now, e);
      AllChainErrorsExactly(a, FindingsOf(a.full).keys, e);
      DeduplicatedKeeps(before + ReviewErrors(a.reviews.value, a.now) + AllChainErrors(a, FindingsOf(a.full).keys));
      forall name | FoundThrough(a, [], name, e)
        ensures e.IncompleteChain? || e.UnreviewedAdvisory? || e.UnreviewedPath?
      {
        FoundKind(a, name, e);
      }
    }
  }
}
