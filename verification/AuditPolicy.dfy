/** The dependency audit: no error is reported exactly when runtime reports are clean and every advisory
    chain of the tooling report is complete, acyclic and covered by the review of its own advisory. */
module AuditPolicy {
  import opened Options

  datatype Via = Named(name: string) | Advisory(url: Option<string>)

  /** `None` stands for a value that is not an array. */
  datatype Finding = Finding(via: Option<seq<Via>>, nodes: Option<seq<string>>)

  /** An object with its keys in the order they are enumerated. */
  datatype Vulnerabilities = Vulnerabilities(keys: seq<string>, findings: map<string, Finding>)

  datatype Report = Report(
    versionTwo: bool, error: bool, vulnerabilities: Option<Vulnerabilities>, total: Option<int>)

  datatype Review = Review(
    package: Option<string>, advisory: Option<string>, nodes: Option<map<string, string>>, expires: Option<int>)

  datatype Installed = Installed(dev: bool, version: Option<string>)

  datatype Audit = Audit(
    runtime: seq<(string, Report)>, full: Report, packages: map<string, Installed>,
    reviews: Option<seq<Option<Review>>>, now: int)

  datatype AuditError =
    | IncompleteReport(scope: string)
    | RuntimeAdvisory(scope: string, name: string)
    | IncompletePolicy
    | BadReview
    | ExpiredReview(package: string)
    | IncompleteChain(name: string)
    | UnreviewedAdvisory(what: string)
    | UnreviewedPath(node: string)

  /** Keys of a JSON object are distinct and are those of its lookup. */
  ghost predicate IsObject(v: Vulnerabilities) {
    && (forall k :: k in v.keys <==> k in v.findings)
    && forall i, j :: 0 <= i < j < |v.keys| ==> v.keys[i] != v.keys[j]
  }

  ghost predicate WellTyped(a: Audit) {
    && (a.full.vulnerabilities.Some? ==> IsObject(a.full.vulnerabilities.value))
    && forall i :: 0 <= i < |a.runtime| && a.runtime[i].1.vulnerabilities.Some? ==>
         IsObject(a.runtime[i].1.vulnerabilities.value)
  }

  predicate Complete(report: Report) {
    && report.versionTwo && !report.error && report.vulnerabilities.Some?
    && report.total == Some(|report.vulnerabilities.value.keys|)
  }

  const NO_FINDINGS := Vulnerabilities([], map[])

  function FindingsOf(report: Report): Vulnerabilities {
    if Complete(report) then report.vulnerabilities.value else NO_FINDINGS
  }

  // ------------------------------------------------------------------------------------------
  // Reviews.

  predicate Truthy(s: Option<string>) {
    s.Some? && s.value != ""
  }

  predicate CompleteReview(review: Option<Review>) {
    review.Some? && Truthy(review.value.package) && Truthy(review.value.advisory) && review.value.nodes.Some?
  }

  function Identity(review: Review): string
    requires Truthy(review.package) && Truthy(review.advisory)
  {
    review.package.value + ":" + review.advisory.value
  }

  predicate Expired(review: Review, now: int) {
    review.expires.None? || now >= review.expires.value
  }

  function IdentitiesOf(reviews: seq<Option<Review>>): set<string> {
    if reviews == [] then {}
    else
      var last := reviews[|reviews| - 1];
      IdentitiesOf(reviews[..|reviews| - 1]) + if CompleteReview(last) then {Identity(last.value)} else {}
  }

  function ReviewErrors(reviews: seq<Option<Review>>, now: int): seq<AuditError> {
    if reviews == [] then []
    else
      var init, last := reviews[..|reviews| - 1], reviews[|reviews| - 1];
      ReviewErrors(init, now) +
      if !CompleteReview(last) then [BadReview]
      else (if Identity(last.value) in IdentitiesOf(init) then [BadReview] else [])
           + if Expired(last.value, now) then [ExpiredReview(last.value.package.value)] else []
  }

  /** The first review of an advisory of a package. */
  function FindReview(reviews: seq<Option<Review>>, name: string, url: Option<string>): Option<Review> {
    if reviews == [] then None
    else if reviews[0].Some? && reviews[0].value.package == Some(name) && reviews[0].value.advisory == url
    then reviews[0]
    else FindReview(reviews[1..], name, url)
  }

  /** `review?.nodes?.[node]`, compared with the installed version: two absent values are equal. */
  predicate Covers(a: Audit, review: Option<Review>, node: string) {
    var listed := if review.Some? && review.value.nodes.Some? && node in review.value.nodes.value
                  then Some(review.value.nodes.value[node]) else None;
    node in a.packages && a.packages[node].dev && listed == a.packages[node].version
  }

  // ------------------------------------------------------------------------------------------
  // Chains.

  function Full(a: Audit): map<string, Finding> {
    FindingsOf(a.full).findings
  }

  function ReviewsOf(a: Audit): seq<Option<Review>> {
    if a.reviews.Some? then a.reviews.value else []
  }

  predicate CompleteFinding(a: Audit, name: string) {
    && name in Full(a)
    && Full(a)[name].via.Some? && Full(a)[name].via.value != []
    && Full(a)[name].nodes.Some? && Full(a)[name].nodes.value != []
  }

  function NodesOf(a: Audit, name: string): seq<string> {
    if name in Full(a) && Full(a)[name].nodes.Some? then Full(a)[name].nodes.value else []
  }

  function ViasOf(a: Audit, name: string): seq<Via> {
    if name in Full(a) && Full(a)[name].via.Some? then Full(a)[name].via.value else []
  }

  /** All nodes of the findings named on a chain. */
  function NodesOn(a: Audit, chain: seq<string>): seq<string> {
    if chain == [] then [] else NodesOn(a, chain[..|chain| - 1]) + NodesOf(a, chain[|chain| - 1])
  }

  function NodeErrors(a: Audit, review: Option<Review>, nodes: seq<string>): seq<AuditError> {
    if nodes == [] then []
    else NodeErrors(a, review, nodes[..|nodes| - 1])
         + if Covers(a, review, nodes[|nodes| - 1]) then [] else [UnreviewedPath(nodes[|nodes| - 1])]
  }

  function AdvisoryErrors(a: Audit, chain: seq<string>, name: string, url: Option<string>): seq<AuditError> {
    var review := FindReview(ReviewsOf(a), name, url);
    (if review.None? then [UnreviewedAdvisory(if url.Some? then url.value else name)] else []) + NodeErrors(a, review, NodesOn(a, chain))
  }

  function NamesIn(chain: seq<string>): set<string> {
    set i | 0 <= i < |chain| :: chain[i]
  }

  /** Errors of the check of `name` reached through `above`. */
  function ChainErrors(a: Audit, above: seq<string>, name: string): seq<AuditError>
    decreases |Full(a).Keys - NamesIn(above)|, 1, 0
  {
    if !CompleteFinding(a, name) || name in above then [IncompleteChain(name)]
    else
      assert Full(a).Keys - NamesIn(above + [name]) < Full(a).Keys - NamesIn(above) by { Narrower(a, above, name); }
      Smaller(Full(a).Keys - NamesIn(above + [name]), Full(a).Keys - NamesIn(above));
      ViaErrors(a, above + [name], name, ViasOf(a, name))
  }

  function ViaErrors(a: Audit, chain: seq<string>, name: string, vias: seq<Via>): seq<AuditError>
    decreases |Full(a).Keys - NamesIn(chain)|, 2, |vias|
  {
    if vias == [] then []
    else
      var last := vias[|vias| - 1];
      ViaErrors(a, chain, name, vias[..|vias| - 1])
      + match last
        case Named(next) => ChainErrors(a, chain, next)
        case Advisory(url) => AdvisoryErrors(a, chain, name, url)
  }

  lemma Narrower(a: Audit, above: seq<string>, name: string)
    requires name in Full(a) && name !in above
    ensures Full(a).Keys - NamesIn(above + [name]) < Full(a).Keys - NamesIn(above)
  {
    assert name in Full(a).Keys - NamesIn(above);
    assert (above + [name])[|above|] == name;
    assert name in NamesIn(above + [name]);
    forall n | n in NamesIn(above) ensures n in NamesIn(above + [name]) {
      var i :| 0 <= i < |above| && above[i] == n;
      assert (above + [name])[i] == n;
    }
  }

  lemma Smaller(s: set<string>, t: set<string>)
    requires s < t
    ensures |s| < |t|
  {
    var x :| x in t && x !in s;
    assert s <= t - {x};
    SubsetSize(s, t - {x});
  }

  lemma SubsetSize(s: set<string>, t: set<string>)
    requires s <= t
    ensures |s| <= |t|
  {
    assert t == s + (t - s);
  }

  // ------------------------------------------------------------------------------------------
  // What the chains must be, independently of the recursion.

  /** A chain: each name is a finding that names the next among its causes. */
  ghost predicate IsChain(a: Audit, chain: seq<string>) {
    chain != [] && forall i :: 0 <= i < |chain| - 1 ==> Named(chain[i + 1]) in ViasOf(a, chain[i])
  }

  /** The end of a chain is a complete finding seen for the first time, and each advisory it cites is
      reviewed by a review that covers every node on the chain. */
  ghost predicate EndsWell(a: Audit, chain: seq<string>)
    requires chain != []
  {
    var name, above := chain[|chain| - 1], chain[..|chain| - 1];
    && CompleteFinding(a, name) && name !in above
    && forall url :: Advisory(url) in ViasOf(a, name) ==> Reviewed(a, chain, name, url)
  }

  ghost predicate Reviewed(a: Audit, chain: seq<string>, name: string, url: Option<string>) {
    var review := FindReview(ReviewsOf(a), name, url);
    review.Some? && forall node :: node in NodesOn(a, chain) ==> Covers(a, review, node)
  }

  lemma {:induction false} NoNodeErrors(a: Audit, review: Option<Review>, nodes: seq<string>)
    ensures NodeErrors(a, review, nodes) == [] <==> forall node :: node in nodes ==> Covers(a, review, node)
  {
    if nodes != [] {
      NoNodeErrors(a, review, nodes[..|nodes| - 1]);
      assert nodes == nodes[..|nodes| - 1] + [nodes[|nodes| - 1]];
    }
  }

  lemma NoAdvisoryErrors(a: Audit, chain: seq<string>, name: string, url: Option<string>)
    ensures AdvisoryErrors(a, chain, name, url) == [] <==> Reviewed(a, chain, name, url)
  {
    NoNodeErrors(a, FindReview(ReviewsOf(a), name, url), NodesOn(a, chain));
  }

  /** No error in a list of causes means none in any of them. */
  lemma {:induction false} NoViaErrors(a: Audit, chain: seq<string>, name: string, vias: seq<Via>)
    ensures ViaErrors(a, chain, name, vias) == [] <==>
              && (forall next :: Named(next) in vias ==> ChainErrors(a, chain, next) == [])
              && (forall url :: Advisory(url) in vias ==> Reviewed(a, chain, name, url))
    decreases |vias|
  {
    hide ViaErrors, ChainErrors, Reviewed;
    ViasUnfold(a, chain, name, vias);
    if vias != [] {
      var init, last := vias[..|vias| - 1], vias[|vias| - 1];
      NoViaErrors(a, chain, name, init);
      assert vias == init + [last];
    }
  }

  lemma ViasUnfold(a: Audit, chain: seq<string>, name: string, vias: seq<Via>)
    ensures ViaErrors(a, chain, name, vias) == [] <==>
              vias == [] || (
                var last := vias[|vias| - 1];
                && ViaErrors(a, chain, name, vias[..|vias| - 1]) == []
                && (last.Named? ==> ChainErrors(a, chain, last.name) == [])
                && (last.Advisory? ==> Reviewed(a, chain, name, last.url)))
  {
    hide ChainErrors, AdvisoryErrors, Reviewed;
    if vias != [] && vias[|vias| - 1].Advisory? { NoAdvisoryErrors(a, chain, name, vias[|vias| - 1].url); }
  }

  ghost predicate AllEndWell(a: Audit, above: seq<string>, name: string) {
    forall q :: IsChain(a, q) && q[0] == name ==> EndsWell(a, above + q)
  }

  /** One level of the recursion, seen from outside. */
  lemma ChainUnfolds(a: Audit, above: seq<string>, name: string)
    ensures ChainErrors(a, above, name) == [] <==>
              CompleteFinding(a, name) && name !in above && ViaErrors(a, above + [name], name, ViasOf(a, name)) == []
    ensures CompleteFinding(a, name) && name !in above ==>
              |Full(a).Keys - NamesIn(above + [name])| < |Full(a).Keys - NamesIn(above)|
  {
    if CompleteFinding(a, name) && name !in above {
      Narrower(a, above, name);
      Smaller(Full(a).Keys - NamesIn(above + [name]), Full(a).Keys - NamesIn(above));
    }
  }

  /** The recursive check reports nothing exactly when every chain through `name` ends well. */
  lemma {:induction false} NoChainErrors(a: Audit, above: seq<string>, name: string)
    ensures ChainErrors(a, above, name) == [] <==> AllEndWell(a, above, name)
    decreases |Full(a).Keys - NamesIn(above)|
  {
    hide ChainErrors, ViaErrors, AllEndWell;
    ChainUnfolds(a, above, name);
    var chain := above + [name];
    LoneEnd(a, above, name);
    if CompleteFinding(a, name) && name !in above {
      NoViaErrors(a, chain, name, ViasOf(a, name));
      forall next ensures ChainErrors(a, chain, next) == [] <==> AllEndWell(a, chain, next) {
        NoChainErrors(a, chain, next);
      }
      CausesDecide(a, above, name);
    }
  }

  /** The chain of `name` alone. */
  lemma LoneEnd(a: Audit, above: seq<string>, name: string)
    ensures AllEndWell(a, above, name) ==>
              && CompleteFinding(a, name) && name !in above
              && forall url :: Advisory(url) in ViasOf(a, name) ==> Reviewed(a, above + [name], name, url)
  {
    hide NodesOn, FindReview;
    var chain := above + [name];
    assert chain[..|chain| - 1] == above && chain[|chain| - 1] == name;
    if AllEndWell(a, above, name) {
      var q := [name];
      assert IsChain(a, q) && q[0] == name;
      assert EndsWell(a, above + q);
    }
  }

  /** All chains through `name` end well exactly when `name` alone does and all through its causes do. */
  lemma CausesDecide(a: Audit, above: seq<string>, name: string)
    requires CompleteFinding(a, name) && name !in above
    ensures AllEndWell(a, above, name) <==>
              && (forall next :: Named(next) in ViasOf(a, name) ==> AllEndWell(a, above + [name], next))
              && forall url :: Advisory(url) in ViasOf(a, name) ==> Reviewed(a, above + [name], name, url)
  {
    hide NodesOn, FindReview;
    var chain := above + [name];
    assert chain[..|chain| - 1] == above && chain[|chain| - 1] == name;
    LoneEnd(a, above, name);
    if AllEndWell(a, above, name) {
      forall next | Named(next) in ViasOf(a, name) ensures AllEndWell(a, chain, next) {
        forall q | IsChain(a, q) && q[0] == next ensures EndsWell(a, chain + q) {
          assert ([name] + q)[0] == name;
          assert above + ([name] + q) == chain + q;
        }
      }
    }
    if && (forall next :: Named(next) in ViasOf(a, name) ==> AllEndWell(a, chain, next))
       && forall url :: Advisory(url) in ViasOf(a, name) ==> Reviewed(a, chain, name, url) {
      forall q | IsChain(a, q) && q[0] == name ensures EndsWell(a, above + q) {
        CauseEnds(a, above, name, q);
      }
    }
  }

  lemma CauseEnds(a: Audit, above: seq<string>, name: string, q: seq<string>)
    requires CompleteFinding(a, name) && name !in above
    requires forall next :: Named(next) in ViasOf(a, name) ==> AllEndWell(a, above + [name], next)
    requires forall url :: Advisory(url) in ViasOf(a, name) ==> Reviewed(a, above + [name], name, url)
    requires IsChain(a, q) && q[0] == name
    ensures EndsWell(a, above + q)
  {
    hide NodesOn, FindReview, Reviewed, CompleteFinding;
    var chain := above + [name];
    if |q| == 1 {
      assert q == [name];
      assert chain[..|chain| - 1] == above && chain[|chain| - 1] == name;
    } else {
      assert Named(q[0 + 1]) in ViasOf(a, q[0]);
      assert AllEndWell(a, chain, q[1]);
      assert q[1..][0] == q[1];
      assert above + q == chain + q[1..];
    }
  }

  // ------------------------------------------------------------------------------------------
  // The whole evaluation.

  function RuntimeErrors(scope: string, names: seq<string>): seq<AuditError> {
    if names == [] then []
    else RuntimeErrors(scope, names[..|names| - 1]) + [RuntimeAdvisory(scope, names[|names| - 1])]
  }

  function ReportErrors(scope: string, report: Report): seq<AuditError> {
    if Complete(report) then [] else [IncompleteReport(scope)]
  }

  function AllRuntimeErrors(reports: seq<(string, Report)>): seq<AuditError> {
    if reports == [] then []
    else
      var (scope, report) := reports[|reports| - 1];
      AllRuntimeErrors(reports[..|reports| - 1]) + ReportErrors(scope, report)
      + RuntimeErrors(scope, FindingsOf(report).keys)
  }

  function AllChainErrors(a: Audit, names: seq<string>): seq<AuditError> {
    if names == [] then [] else AllChainErrors(a, names[..|names| - 1]) + ChainErrors(a, [], names[|names| - 1])
  }

  function Deduplicated(errors: seq<AuditError>): seq<AuditError> {
    if errors == [] then []
    else
      var init := Deduplicated(errors[..|errors| - 1]);
      var last := errors[|errors| - 1];
      if last in errors[..|errors| - 1] then init else init + [last]
  }

  function EvaluateErrors(a: Audit): seq<AuditError> {
    var before := AllRuntimeErrors(a.runtime) + ReportErrors("tooling", a.full);
    if a.reviews.None? then before + [IncompletePolicy]
    else Deduplicated(before + ReviewErrors(a.reviews.value, a.now) + AllChainErrors(a, FindingsOf(a.full).keys))
  }

  /** Reviews are complete, unexpired, and no two have the same identity. */
  ghost predicate ReviewsInOrder(reviews: seq<Option<Review>>, now: int) {
    && (forall i :: 0 <= i < |reviews| ==> CompleteReview(reviews[i]) && !Expired(reviews[i].value, now))
    && (forall i, j :: 0 <= i < j < |reviews| && CompleteReview(reviews[i]) && CompleteReview(reviews[j]) ==>
          Identity(reviews[i].value) != Identity(reviews[j].value))
  }

  lemma {:induction false} IdentitiesAre(reviews: seq<Option<Review>>, identity: string)
    ensures identity in IdentitiesOf(reviews) <==>
              exists i :: 0 <= i < |reviews| && CompleteReview(reviews[i]) && Identity(reviews[i].value) == identity
  {
    if reviews != [] {
      var n := |reviews| - 1;
      IdentitiesAre(reviews[..n], identity);
      assert forall i :: 0 <= i < n ==> reviews[..n][i] == reviews[i];
    }
  }

  /** What one more review adds to the order of those before it. */
  lemma LastReview(reviews: seq<Option<Review>>, now: int)
    requires reviews != []
    ensures var init, last := reviews[..|reviews| - 1], reviews[|reviews| - 1];
            ReviewsInOrder(reviews, now) <==>
              && ReviewsInOrder(init, now)
              && CompleteReview(last) && !Expired(last.value, now) && Identity(last.value) !in IdentitiesOf(init)
  {
    hide IdentitiesOf, Identity, Expired;
    var n := |reviews| - 1;
    assert reviews[n] == reviews[|reviews| - 1];
    if CompleteReview(reviews[n]) { IdentitiesAre(reviews[..n], Identity(reviews[n].value)); }
    assert forall i :: 0 <= i < n ==> reviews[..n][i] == reviews[i];
  }

  lemma {:induction false} NoReviewErrors(reviews: seq<Option<Review>>, now: int)
    ensures ReviewErrors(reviews, now) == [] <==> ReviewsInOrder(reviews, now)
  {
    hide IdentitiesOf, Identity, Expired;
    if reviews != [] {
      NoReviewErrors(reviews[..|reviews| - 1], now);
      LastReview(reviews, now);
      hide ReviewsInOrder;
    }
  }

  lemma {:induction false} NoRuntimeErrors(reports: seq<(string, Report)>)
    ensures AllRuntimeErrors(reports) == [] <==>
              forall i :: 0 <= i < |reports| ==> Complete(reports[i].1) && FindingsOf(reports[i].1).keys == []
  {
    if reports != [] {
      var n := |reports| - 1;
      NoRuntimeErrors(reports[..n]);
      assert forall i :: 0 <= i < n ==> reports[..n][i] == reports[i];
    }
  }

  lemma {:induction false} NoAllChainErrors(a: Audit, names: seq<string>)
    ensures AllChainErrors(a, names) == [] <==> forall name :: name in names ==> AllEndWell(a, [], name)
  {
    if names != [] {
      var n := |names| - 1;
      NoAllChainErrors(a, names[..n]);
      NoChainErrors(a, [], names[n]);
      assert names == names[..n] + [names[n]];
    }
  }

  lemma {:induction false} NothingDeduplicated(errors: seq<AuditError>)
    ensures Deduplicated(errors) == [] <==> errors == []
  {
    if errors != [] { NothingDeduplicated(errors[..|errors| - 1]); }
  }

  ghost predicate RuntimeClean(a: Audit) {
    forall i :: 0 <= i < |a.runtime| ==>
      Complete(a.runtime[i].1) && a.runtime[i].1.vulnerabilities.value.keys == []
  }

  /** Every chain from any finding of the tooling report. */
  ghost predicate ChainsReviewed(a: Audit) {
    forall chain :: IsChain(a, chain) && chain[0] in Full(a) ==> EndsWell(a, chain)
  }

  lemma ChainsFromAll(a: Audit)
    requires WellTyped(a)
    ensures ChainsReviewed(a) <==> forall name :: name in FindingsOf(a.full).keys ==> AllEndWell(a, [], name)
  {
    hide EndsWell;
    assert forall name :: name in FindingsOf(a.full).keys <==> name in Full(a);
    if ChainsReviewed(a) {
      forall name | name in FindingsOf(a.full).keys ensures AllEndWell(a, [], name) {
        forall q | IsChain(a, q) && q[0] == name ensures EndsWell(a, [] + q) { assert [] + q == q; }
      }
    }
    if forall name :: name in FindingsOf(a.full).keys ==> AllEndWell(a, [], name) {
      forall chain | IsChain(a, chain) && chain[0] in Full(a) ensures EndsWell(a, chain) {
        assert AllEndWell(a, [], chain[0]);
        assert [] + chain == chain;
      }
    }
  }

  /** No error is reported exactly when all of this holds. */
  lemma CleanExactly(a: Audit)
    requires WellTyped(a)
    ensures EvaluateErrors(a) == [] <==>
              && RuntimeClean(a) && Complete(a.full)
              && a.reviews.Some? && ReviewsInOrder(a.reviews.value, a.now)
              && ChainsReviewed(a)
  {
    hide AllRuntimeErrors, ReviewErrors, AllChainErrors, ReviewsInOrder, ChainsReviewed, AllEndWell, Deduplicated;
    NoRuntimeErrors(a.runtime);
    if a.reviews.Some? {
      NoReviewErrors(a.reviews.value, a.now);
      NoAllChainErrors(a, FindingsOf(a.full).keys);
      ChainsFromAll(a);
      NothingDeduplicated(AllRuntimeErrors(a.runtime) + ReportErrors("tooling", a.full)
        + ReviewErrors(a.reviews.value, a.now) + AllChainErrors(a, FindingsOf(a.full).keys));
    }
  }

  /** In a clean audit no chain repeats a finding. */
  lemma CleanChainsAcyclic(a: Audit, chain: seq<string>, i: nat, j: nat)
    requires ChainsReviewed(a)
    requires IsChain(a, chain) && chain[0] in Full(a) && i < j < |chain|
    ensures chain[i] != chain[j]
  {
    var prefix := chain[..j + 1];
    assert IsChain(a, prefix) && prefix[0] == chain[0];
    assert EndsWell(a, prefix);
    assert chain[i] in prefix[..j];
  }

  predicate Lists(review: Option<Review>, node: string) {
    review.Some? && review.value.nodes.Some? && node in review.value.nodes.value
  }

  predicate Versioned(a: Audit, node: string) {
    node in a.packages && a.packages[node].version.Some?
  }

  /** The chain is one of the tooling report and its last finding cites the advisory. */
  ghost predicate LeadsTo(a: Audit, chain: seq<string>, url: Option<string>) {
    IsChain(a, chain) && chain[0] in Full(a) && Advisory(url) in ViasOf(a, chain[|chain| - 1])
  }

  /** What the policy is for: an advisory's own review lists every node on every chain to it. */
  ghost predicate EveryNodeListed(a: Audit) {
    forall chain, url, node :: LeadsTo(a, chain, url) && node in NodesOn(a, chain) ==>
      Lists(FindReview(ReviewsOf(a), chain[|chain| - 1], url), node)
  }

  ghost predicate EveryNodeVersioned(a: Audit) {
    forall chain, url, node :: LeadsTo(a, chain, url) && node in NodesOn(a, chain) ==> Versioned(a, node)
  }

  lemma CoveredNode(a: Audit, chain: seq<string>, url: Option<string>, node: string)
    requires ChainsReviewed(a) && LeadsTo(a, chain, url) && node in NodesOn(a, chain)
    ensures Lists(FindReview(ReviewsOf(a), chain[|chain| - 1], url), node) <==> Versioned(a, node)
  {
    hide FindReview, NodesOn, ViasOf, Full;
    assert EndsWell(a, chain);
    assert Reviewed(a, chain, chain[|chain| - 1], url);
  }

  /** A clean audit means that every node is listed exactly when every such node is installed with a version:
      the source compares the listed version with the installed one, and two absent ones are equal. */
  lemma CleanListsExactly(a: Audit)
    requires WellTyped(a) && EvaluateErrors(a) == []
    ensures EveryNodeListed(a) <==> EveryNodeVersioned(a)
  {
    hide EvaluateErrors, FindReview, NodesOn, LeadsTo, Lists, Versioned;
    CleanExactly(a);
    hide ChainsReviewed, WellTyped;
    forall chain, url, node | LeadsTo(a, chain, url) && node in NodesOn(a, chain)
      ensures IsChain(a, chain)
      ensures Lists(FindReview(ReviewsOf(a), chain[|chain| - 1], url), node) <==> Versioned(a, node)
    {
      LeadsAlong(a, chain, url);
      CoveredNode(a, chain, url, node);
    }
  }

  lemma LeadsAlong(a: Audit, chain: seq<string>, url: Option<string>)
    requires LeadsTo(a, chain, url)
    ensures IsChain(a, chain)
  {
  }

  const UNVERSIONED_REVIEW := Review(Some("p"), Some("u"), Some(map[]), Some(1))

  /** One finding, reviewed, whose one node is installed without a version and not listed. */
  const UNVERSIONED := Audit(
    [],
    Report(true, false, Some(Vulnerabilities(["p"], map["p" := Finding(Some([Advisory(Some("u"))]), Some(["n"]))])),
           Some(1)),
    map["n" := Installed(true, None)], Some([Some(UNVERSIONED_REVIEW)]), 0)

  lemma {:induction false} UnversionedChain()
    ensures ChainErrors(UNVERSIONED, [], "p") == []
  {
    hide ChainErrors, ViaErrors, AdvisoryErrors, NodesOn, NodeErrors;
    var a, chain, vias := UNVERSIONED, [] + ["p"], [Advisory(Some("u"))];
    assert chain[..0] == [] && vias[..0] == [];
    assert NodesOn(a, []) == [] && NodesOn(a, chain) == ["n"] by { UnversionedNodes(); }
    assert Reviewed(a, chain, "p", Some("u"));
    NoAdvisoryErrors(a, chain, "p", Some("u"));
    ChainIs(a, [], "p");
    LastVia(a, chain, "p", vias);
    LastVia(a, chain, "p", vias[..0]);
  }

  lemma {:induction false} UnversionedNodes()
    ensures NodesOn(UNVERSIONED, []) == [] && NodesOn(UNVERSIONED, [] + ["p"]) == ["n"]
  {
    assert ["p"][..0] == [];
    assert [] + ["n"] == ["n"];
  }

  /** So a node installed without a version passes although no review lists it. */
  lemma {:induction false} UnversionedNodePasses()
    ensures EvaluateErrors(UNVERSIONED) == [] && "n" !in UNVERSIONED_REVIEW.nodes.value
  {
    hide ChainErrors;
    UnversionedChain();
    assert ["p"][..0] == [];
    assert AllChainErrors(UNVERSIONED, ["p"]) == [];
    assert ReviewErrors([Some(UNVERSIONED_REVIEW)], 0) == [] by { NoReviewErrors([Some(UNVERSIONED_REVIEW)], 0); }
  }

  /** One evaluation; every check pushes onto the same list of errors. */
  class AuditRun {
    var errors: seq<AuditError>

    constructor ()
      ensures errors == []
    {
      errors := [];
    }

    method Findings(report: Report, scope: string) returns (found: Vulnerabilities)
      modifies this
      ensures errors == old(errors) + ReportErrors(scope, report)
      ensures found == FindingsOf(report)
    {
      if !Complete(report) {
        errors := errors + [IncompleteReport(scope)];
        return NO_FINDINGS;
      }
      found := report.vulnerabilities.value;
    }

    method ReportRuntime(scope: string, names: seq<string>)
      modifies this
      ensures errors == old(errors) + RuntimeErrors(scope, names)
    {
      for i := 0 to |names|
        invariant errors == old(errors) + RuntimeErrors(scope, names[..i])
      {
        assert names[..i + 1][..i] == names[..i];
        errors := errors + [RuntimeAdvisory(scope, names[i])];
      }
      assert names[..|names|] == names;
    }

    method CheckRuntime(reports: seq<(string, Report)>)
      modifies this
      ensures errors == old(errors) + AllRuntimeErrors(reports)
    {
      for i := 0 to |reports|
        invariant errors == old(errors) + AllRuntimeErrors(reports[..i])
      {
        hide RuntimeErrors, ReportErrors, FindingsOf;
        var found := Findings(reports[i].1, reports[i].0);
        ReportRuntime(reports[i].0, found.keys);
        assert reports[..i + 1][..i] == reports[..i];
      }
      assert reports[..|reports|] == reports;
    }

    method CheckReviews(reviews: seq<Option<Review>>, now: int)
      modifies this
      ensures errors == old(errors) + ReviewErrors(reviews, now)
    {
      var identities: set<string> := {};
      for i := 0 to |reviews|
        invariant errors == old(errors) + ReviewErrors(reviews[..i], now)
        invariant identities == IdentitiesOf(reviews[..i])
      {
        assert reviews[..i + 1][..i] == reviews[..i];
        ghost var before := errors;
        if !CompleteReview(reviews[i]) {
          errors := errors + [BadReview];
          continue;
        }
        var review := reviews[i].value;
        var identity := Identity(review);
        if identity in identities {
          errors := errors + [BadReview];
        }
        identities := identities + {identity};
        if Expired(review, now) {
          errors := errors + [ExpiredReview(review.package.value)];
        }
      }
      assert reviews[..|reviews|] == reviews;
    }

    method CheckNodes(a: Audit, review: Option<Review>, nodes: seq<string>)
      modifies this
      ensures errors == old(errors) + NodeErrors(a, review, nodes)
    {
      for i := 0 to |nodes|
        invariant errors == old(errors) + NodeErrors(a, review, nodes[..i])
      {
        assert nodes[..i + 1][..i] == nodes[..i];
        if !Covers(a, review, nodes[i]) {
          errors := errors + [UnreviewedPath(nodes[i])];
        }
      }
      assert nodes[..|nodes|] == nodes;
    }

    method CheckAdvisory(a: Audit, chain: seq<string>, name: string, url: Option<string>)
      modifies this
      ensures errors == old(errors) + AdvisoryErrors(a, chain, name, url)
    {
      var review := FindReview(ReviewsOf(a), name, url);
      if review.None? {
        errors := errors + [UnreviewedAdvisory(if url.Some? then url.value else name)];
      }
      CheckNodes(a, review, NodesOn(a, chain));
    }

    /** `visited` is the set of the names on `ancestors`. */
    method Check(a: Audit, visited: set<string>, ancestors: seq<string>, name: string)
      requires visited == NamesIn(ancestors)
      modifies this
      ensures errors == old(errors) + ChainErrors(a, ancestors, name)
      decreases |Full(a).Keys - NamesIn(ancestors)|
    {
      hide NodesOn, FindReview, AdvisoryErrors, ViaErrors, ChainErrors;
      ChainIs(a, ancestors, name);
      assert name in visited <==> name in ancestors;
      if !CompleteFinding(a, name) || name in visited {
        errors := errors + [IncompleteChain(name)];
        return;
      }
      ChainUnfolds(a, ancestors, name);
      var next, chain := visited + {name}, ancestors + [name];
      NamesExtend(ancestors, name);
      var vias := ViasOf(a, name);
      LastVia(a, chain, name, vias[..0]);
      for i := 0 to |vias|
        invariant errors == old(errors) + ViaErrors(a, chain, name, vias[..i])
      {
        assert vias[..i + 1][..i] == vias[..i];
        LastVia(a, chain, name, vias[..i + 1]);
        match vias[i] {
          case Named(cause) =>
            Check(a, next, chain, cause);
          case Advisory(url) =>
            CheckAdvisory(a, chain, name, url);
        }
      }
      assert vias[..|vias|] == vias;
    }

    /** The whole evaluation; see `CleanExactly` for when it reports nothing. */
    method Evaluate(a: Audit) returns (found: seq<AuditError>)
      requires errors == []
      modifies this
      ensures found == EvaluateErrors(a)
    {
      hide AllRuntimeErrors, ChainErrors, ReviewErrors, Deduplicated, FindingsOf, ReportErrors;
      CheckRuntime(a.runtime);
      assert [] + AllRuntimeErrors(a.runtime) == AllRuntimeErrors(a.runtime);
      var full := Findings(a.full, "tooling");
      if a.reviews.None? {
        return errors + [IncompletePolicy];
      }
      CheckReviews(a.reviews.value, a.now);
      ghost var before := errors;
      for i := 0 to |full.keys|
        invariant errors == before + AllChainErrors(a, full.keys[..i])
      {
        assert full.keys[..i + 1][..i] == full.keys[..i];
        Check(a, {}, [], full.keys[i]);
      }
      assert full.keys[..|full.keys|] == full.keys;
      found := Deduplicated(errors);
    }
  }

  /** The unfoldings the loops over causes follow. */
  lemma ChainIs(a: Audit, above: seq<string>, name: string)
    ensures ChainErrors(a, above, name) ==
              if !CompleteFinding(a, name) || name in above then [IncompleteChain(name)]
              else ViaErrors(a, above + [name], name, ViasOf(a, name))
  {
  }

  lemma LastVia(a: Audit, chain: seq<string>, name: string, vias: seq<Via>)
    ensures vias == [] ==> ViaErrors(a, chain, name, vias) == []
    ensures vias != [] ==>
              var last := vias[|vias| - 1];
              ViaErrors(a, chain, name, vias) ==
              ViaErrors(a, chain, name, vias[..|vias| - 1])
              + if last.Named? then ChainErrors(a, chain, last.name) else AdvisoryErrors(a, chain, name, last.url)
  {
  }

  lemma NamesExtend(above: seq<string>, name: string)
    ensures NamesIn(above + [name]) == NamesIn(above) + {name}
  {
    var chain := above + [name];
    assert chain[|above|] == name;
    forall n | n in NamesIn(above) ensures n in NamesIn(chain) {
      var i :| 0 <= i < |above| && above[i] == n;
      assert chain[i] == n;
    }
  }
}
