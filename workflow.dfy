/**
 * The end-to-end driver: each email runs through preprocessing, intent detection,
 * retrieval, drafting and quality checking, and a final router picks the action. The
 * router's table differs from the quality checker's own. The driver keeps four counters,
 * and a report missing a key the router reads stops the run.
 */
module Workflow {
  import opened Wrappers
  import opened Capability
  import opened EmailProcessor
  import opened IntentDetector
  import opened RagSystem
  import opened DraftGenerator
  import opened QualityChecker

  /** The router's final threshold on the lower of the two confidences. */
  const AutoSendConfidence: real := 0.85

  /** What the router reads: the QC safety flag, HIGH urgency, both needs-human flags and both scores. */
  datatype RoutingInput = RoutingInput(
    isSafe: bool,
    urgencyHigh: bool,
    draftNeedsHuman: bool,
    qcNeedsHuman: bool,
    draftConfidence: real,
    qualityScore: real)

  /** Which row of the table fired. */
  datatype Reason = SafetyConcern | HighUrgency | FlaggedForReview | HighConfidence | LowConfidence

  datatype Decision = Decision(action: Action, reason: Reason, finalConfidence: real)

  function Min(a: real, b: real): real {
    if b < a then b else a
  }

  /**
   * The routing table, first match wins: an unsafe report escalates; then HIGH urgency
   * escalates; then either needs-human flag sends the draft to review; then the lower of
   * the two confidences decides between sending (at least 0.85) and review.
   */
  function Route(input: RoutingInput): (d: Decision)
    ensures d.finalConfidence <= input.draftConfidence && d.finalConfidence <= input.qualityScore
    ensures d.finalConfidence == input.draftConfidence || d.finalConfidence == input.qualityScore
    ensures d.action == EscalateToHuman <==> !input.isSafe || input.urgencyHigh
    ensures d.action == AutoSend <==>
      && input.isSafe && !input.urgencyHigh && !input.draftNeedsHuman && !input.qcNeedsHuman
      && input.draftConfidence >= AutoSendConfidence && input.qualityScore >= AutoSendConfidence
    ensures d.reason == SafetyConcern <==> !input.isSafe
    ensures d.reason == HighUrgency <==> input.isSafe && input.urgencyHigh
    ensures d.reason == FlaggedForReview <==>
      input.isSafe && !input.urgencyHigh && (input.draftNeedsHuman || input.qcNeedsHuman)
    ensures d.reason == HighConfidence <==> d.action == AutoSend
    ensures d.reason == LowConfidence <==>
      && input.isSafe && !input.urgencyHigh && !input.draftNeedsHuman && !input.qcNeedsHuman
      && (input.draftConfidence < AutoSendConfidence || input.qualityScore < AutoSendConfidence)
  {
    var needsHuman := input.draftNeedsHuman || input.qcNeedsHuman;
    var finalConfidence := Min(input.draftConfidence, input.qualityScore);
    if !input.isSafe then Decision(EscalateToHuman, SafetyConcern, finalConfidence)
    else if input.urgencyHigh then Decision(EscalateToHuman, HighUrgency, finalConfidence)
    else if needsHuman then Decision(HumanReviewWithDraft, FlaggedForReview, finalConfidence)
    else if finalConfidence >= AutoSendConfidence then Decision(AutoSend, HighConfidence, finalConfidence)
    else Decision(HumanReviewWithDraft, LowConfidence, finalConfidence)
  }

  /**
   * The router's reading of the stage results; `None` when the quality report lacks
   * `is_safe`, `needs_human_review` or `quality_score`, which the driver indexes directly.
   */
  function RoutingInputOf(urgency: Urgency, draft: Draft, report: QualityReport): (r: Option<RoutingInput>)
    ensures r.Some? <==> report.isSafe.Some? && report.needsHumanReview.Some? && report.qualityScore.Some?
    ensures r.Some? ==> r.value.urgencyHigh == (urgency == High) && r.value.isSafe == report.isSafe.value
    ensures r.Some? ==> r.value.draftNeedsHuman == draft.needsHuman && r.value.draftConfidence == draft.confidence
    ensures r.Some? ==> r.value.qcNeedsHuman == report.needsHumanReview.value && r.value.qualityScore == report.qualityScore.value
  {
    if report.isSafe.Some? && report.needsHumanReview.Some? && report.qualityScore.Some? then
      Some(RoutingInput(report.isSafe.value, urgency == High, draft.needsHuman, report.needsHumanReview.value,
                        draft.confidence, report.qualityScore.value))
    else None
  }

  /** The driver's `top_k`: 5 for an email marked complex or classified MULTIPLE, 3 otherwise. */
  function TopK(complexity: Option<string>, category: string): (k: nat)
    ensures k == 5 <==> complexity == Some("complex") || category == "MULTIPLE"
    ensures k == 3 <==> !(complexity == Some("complex") || category == "MULTIPLE")
  {
    if complexity == Some("complex") then 5
    else if category == "MULTIPLE" then 5
    else 3
  }

  /** A test email as the driver reads it; subject and body are indexed directly, so they are present. */
  datatype TestEmail = TestEmail(subject: string, body: string, complexity: Option<string>)

  /** The four model replies one email receives, in stage order. */
  datatype Replies = Replies(intent: CallResult, ranking: CallResult, draft: CallResult, quality: CallResult)

  /** How each stage decodes its reply. */
  datatype Decoders = Decoders(
    intent: string -> Decoded<IntentReply>,
    ranking: string -> Decoded<RankingReply>,
    draft: string -> Decoded<DraftReply>,
    quality: string -> Decoded<QualityReport>)

  /** Everything the driver computes for one email; `decision` is `None` when the run stops there. */
  datatype Outcome = Outcome(
    preprocessed: PreprocessedEmail,
    intent: IntentResult,
    topK: nat,
    relevant: seq<RetrievedFaq>,
    draft: Draft,
    report: QualityReport,
    decision: Option<Decision>)

  /** One iteration of the driver's loop. */
  function ProcessEmail(email: TestEmail, faqs: seq<Faq>, replies: Replies, dec: Decoders): (o: Outcome)
    ensures o.preprocessed == PreprocessEmail(RawEmail(Some(email.subject), Some(email.body)))
    ensures o.intent == DetectIntent(replies.intent, dec.intent)
    ensures o.topK == TopK(email.complexity, o.intent.category)
    ensures o.relevant == Search(faqs, Some(o.intent.category), o.topK, replies.ranking, dec.ranking)
    ensures o.draft == GenerateDraft(email.body, replies.draft, dec.draft)
    ensures o.report == CheckQuality(replies.quality, dec.quality)
    ensures o.topK == 3 || o.topK == 5
    ensures |o.relevant| <= o.topK
    ensures match RoutingInputOf(o.preprocessed.urgencyLevel, o.draft, o.report)
      case None => o.decision.None?
      case Some(input) => o.decision == Some(Route(input))
  {
    var pre := PreprocessEmail(RawEmail(Some(email.subject), Some(email.body)));
    var intent := DetectIntent(replies.intent, dec.intent);
    var topK := TopK(email.complexity, intent.category);
    var relevant := Search(faqs, Some(intent.category), topK, replies.ranking, dec.ranking);
    SearchAtMostTopK(faqs, Some(intent.category), topK, replies.ranking, dec.ranking);
    var draft := GenerateDraft(email.body, replies.draft, dec.draft);
    var report := CheckQuality(replies.quality, dec.quality);
    var decision := match RoutingInputOf(pre.urgencyLevel, draft, report)
      case None => None
      case Some(input) => Some(Route(input));
    Outcome(pre, intent, topK, relevant, draft, report, decision)
  }

  // ---------------------------------------------------------------------------
  // What the routing guarantees
  // ---------------------------------------------------------------------------

  /** A failed quality check reaches the router as an unsafe report, which escalates. */
  lemma FailedCheckEscalates(urgency: Urgency, draft: Draft, message: string)
    ensures RoutingInputOf(urgency, draft, FailureReport(message)).Some?
    ensures Route(RoutingInputOf(urgency, draft, FailureReport(message)).value).action == EscalateToHuman
  {
  }

  /** The fallback draft needs a human and has confidence 0, so it is never sent. */
  lemma FallbackDraftNeverSent(urgency: Urgency, customerEmail: string, report: QualityReport)
    requires RoutingInputOf(urgency, FallbackResponse(customerEmail), report).Some?
    ensures Route(RoutingInputOf(urgency, FallbackResponse(customerEmail), report).value).action != AutoSend
  {
  }

  /** The router sends only what the quality checker's own table would also send. */
  lemma RouterStricterThanChecker(urgency: Urgency, draft: Draft, report: QualityReport)
    requires RoutingInputOf(urgency, draft, report).Some?
    requires Route(RoutingInputOf(urgency, draft, report).value).action == AutoSend
    ensures DetermineAction(report) == AutoSend
  {
  }

  /**
   * The two tables disagree: a safe, unflagged report scored 0.5 is escalated by the
   * checker's table but sent to review by the router; and a report the checker would send
   * is escalated by the router when urgency is HIGH.
   */
  lemma TablesDiffer(draft: Draft)
    requires !draft.needsHuman
    ensures var report := QualityReport(Some(0.5), Some(true), Some(false), None, None, None);
      && DetermineAction(report) == EscalateToHuman
      && Route(RoutingInputOf(Low, draft, report).value).action == HumanReviewWithDraft
    ensures var report := QualityReport(Some(0.9), Some(true), Some(false), None, None, None);
      && DetermineAction(report) == AutoSend
      && Route(RoutingInputOf(High, draft, report).value).action == EscalateToHuman
  {
  }

  /** An email whose quality check fails is escalated, whatever the other stages produced. */
  lemma FailedQualityStageEscalates(email: TestEmail, faqs: seq<Faq>, replies: Replies, dec: Decoders)
    requires !ReadReply(replies.quality, dec.quality).Ok?
    ensures var o := ProcessEmail(email, faqs, replies, dec);
      o.decision.Some? && o.decision.value.action == EscalateToHuman
  {
    var o := ProcessEmail(email, faqs, replies, dec);
    FailedCheckEscalates(o.preprocessed.urgencyLevel, o.draft, ReadReply(replies.quality, dec.quality).message);
  }

  /** An email whose drafting fails is never sent automatically. */
  lemma FailedDraftNeverSent(email: TestEmail, faqs: seq<Faq>, replies: Replies, dec: Decoders)
    requires !ReadReply(replies.draft, dec.draft).Ok?
    ensures var o := ProcessEmail(email, faqs, replies, dec);
      o.decision.Some? ==> o.decision.value.action != AutoSend
  {
  }

  // ---------------------------------------------------------------------------
  // The counters
  // ---------------------------------------------------------------------------

  /** The decisions of the emails processed before the first one that stops the run. */
  function Processed(outcomes: seq<Option<Decision>>): (ds: seq<Decision>)
    ensures |ds| <= |outcomes|
    decreases |outcomes|
  {
    if outcomes == [] || outcomes[0].None? then []
    else [outcomes[0].value] + Processed(outcomes[1..])
  }

  /** The processed decisions are the outcomes up to the first email that stops the run. */
  lemma {:induction false} ProcessedMatches(outcomes: seq<Option<Decision>>)
    ensures var ds := Processed(outcomes);
      && outcomes[..|ds|] == Somes(ds)
      && (|ds| < |outcomes| ==> outcomes[|ds|].None?)
    decreases |outcomes|
  {
    if outcomes != [] && outcomes[0].Some? {
      var ds := Processed(outcomes);
      ProcessedMatches(outcomes[1..]);
      assert ds == [outcomes[0].value] + Processed(outcomes[1..]);
      assert outcomes[..|ds|] == [outcomes[0]] + outcomes[1..][..|ds| - 1];
    }
  }

  function Count(ds: seq<Decision>, a: Action): nat
    decreases |ds|
  {
    if ds == [] then 0 else Count(ds[..|ds| - 1], a) + (if ds[|ds| - 1].action == a then 1 else 0)
  }

  /** Every decision is counted under exactly one action. */
  lemma {:induction false} CountsPartition(ds: seq<Decision>)
    ensures Count(ds, AutoSend) + Count(ds, HumanReviewWithDraft) + Count(ds, EscalateToHuman) == |ds|
    decreases |ds|
  {
    if ds != [] {
      CountsPartition(ds[..|ds| - 1]);
    }
  }

  /** Each decision wrapped as a present outcome. */
  function Somes(ds: seq<Decision>): (os: seq<Option<Decision>>)
    ensures |os| == |ds|
    ensures forall k :: 0 <= k < |ds| ==> os[k] == Some(ds[k])
  {
    seq(|ds|, k requires 0 <= k < |ds| => Some(ds[k]))
  }

  lemma SomesAppend(outcomes: seq<Option<Decision>>, ds: seq<Decision>, d: Decision)
    requires |ds| < |outcomes| && outcomes[..|ds|] == Somes(ds) && outcomes[|ds|] == Some(d)
    ensures outcomes[..|ds| + 1] == Somes(ds + [d])
  {
    assert outcomes[..|ds| + 1] == outcomes[..|ds|] + [Some(d)];
  }

  /** Adding one decision adds one to the count of its action and leaves the others alone. */
  lemma CountAppend(ds: seq<Decision>, d: Decision)
    ensures forall a :: Count(ds + [d], a) == Count(ds, a) + (if d.action == a then 1 else 0)
  {
    assert (ds + [d])[..|ds|] == ds;
  }

  /**
   * `Processed` is the only list of decisions that matches the outcomes position by position
   * and ends either with the outcomes or just before an email that stops the run.
   */
  lemma {:induction false} ProcessedPrefix(outcomes: seq<Option<Decision>>, ds: seq<Decision>)
    requires |ds| <= |outcomes| && outcomes[..|ds|] == Somes(ds)
    requires |ds| < |outcomes| ==> outcomes[|ds|].None?
    ensures Processed(outcomes) == ds
    decreases |ds|
  {
    if ds != [] {
      assert outcomes[0] == Some(ds[0]);
      assert outcomes[1..][..|ds| - 1] == Somes(ds[1..]);
      ProcessedPrefix(outcomes[1..], ds[1..]);
    }
  }

  datatype Stats = Stats(total: nat, autoSend: nat, humanReview: nat, escalate: nat)

  /** The router's decision for one email, or `None` when the run stops there. */
  function DecisionOf(email: (TestEmail, Replies), faqs: seq<Faq>, dec: Decoders): Option<Decision> {
    ProcessEmail(email.0, faqs, email.1, dec).decision
  }

  function Outcomes(emails: seq<(TestEmail, Replies)>, faqs: seq<Faq>, dec: Decoders): (os: seq<Option<Decision>>)
    ensures |os| == |emails|
  {
    seq(|emails|, k requires 0 <= k < |emails| => DecisionOf(emails[k], faqs, dec))
  }

  /** What `decide` makes of each email, in order. */
  function Decisions(emails: seq<(TestEmail, Replies)>, decide: ((TestEmail, Replies)) -> Option<Decision>): (os: seq<Option<Decision>>)
    ensures |os| == |emails|
  {
    seq(|emails|, k requires 0 <= k < |emails| => decide(emails[k]))
  }

  /**
   * The driver's loop, with the per-email pipeline given as `decide`: each processed email
   * adds one to the total and one to the counter of its action; an email for which `decide`
   * gives no decision stops the loop (`completed` is false), and the counters then cover
   * the emails before it.
   */
  method Drive(emails: seq<(TestEmail, Replies)>, decide: ((TestEmail, Replies)) -> Option<Decision>)
    returns (stats: Stats, completed: bool)
    ensures var ds := Processed(Decisions(emails, decide));
      && stats.total == |ds|
      && stats.autoSend == Count(ds, AutoSend)
      && stats.humanReview == Count(ds, HumanReviewWithDraft)
      && stats.escalate == Count(ds, EscalateToHuman)
    ensures stats.autoSend + stats.humanReview + stats.escalate == stats.total
    ensures completed <==> stats.total == |emails|
  {
    ghost var outcomes := Decisions(emails, decide);
    ghost var ds: seq<Decision> := [];
    var total, autoSend, humanReview, escalate := 0, 0, 0, 0;
    completed := true;
    var i := 0;
    while i < |emails|
      invariant 0 <= i <= |emails|
      invariant total == |ds| == i
      invariant outcomes[..i] == Somes(ds)
      invariant autoSend == Count(ds, AutoSend)
      invariant humanReview == Count(ds, HumanReviewWithDraft)
      invariant escalate == Count(ds, EscalateToHuman)
    {
      var decision := decide(emails[i]);
      if decision.None? {
        completed := false;
        break;
      }
      var d := decision.value;
      SomesAppend(outcomes, ds, d);
      CountAppend(ds, d);
      ds := ds + [d];
      match d.action {
        case EscalateToHuman => escalate := escalate + 1;
        case HumanReviewWithDraft => humanReview := humanReview + 1;
        case AutoSend => autoSend := autoSend + 1;
      }
      total := total + 1;
      i := i + 1;
    }
    ProcessedPrefix(outcomes, ds);
    CountsPartition(ds);
    stats := Stats(total, autoSend, humanReview, escalate);
  }

  /** `main`: every email runs through the whole pipeline and is counted under its action. */
  method RunWorkflow(emails: seq<(TestEmail, Replies)>, faqs: seq<Faq>, dec: Decoders)
    returns (stats: Stats, completed: bool)
    ensures var ds := Processed(Outcomes(emails, faqs, dec));
      && stats.total == |ds|
      && stats.autoSend == Count(ds, AutoSend)
      && stats.humanReview == Count(ds, HumanReviewWithDraft)
      && stats.escalate == Count(ds, EscalateToHuman)
    ensures stats.autoSend + stats.humanReview + stats.escalate == stats.total
    ensures completed <==> stats.total == |emails|
  {
    var decide := (email: (TestEmail, Replies)) => DecisionOf(email, faqs, dec);
    stats, completed := Drive(emails, decide);
    assert Decisions(emails, decide) == Outcomes(emails, faqs, dec);
  }
}
