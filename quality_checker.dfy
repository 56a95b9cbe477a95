/**
 * Quality checking: the reviewing model's reply becomes a report whose `action` is always
 * recomputed locally from three of its fields, and any failure yields a fixed report that
 * escalates to a human. This action table is the checker's own; the final router applies
 * a different one.
 */
module QualityChecker {
  import opened Wrappers
  import opened Text
  import opened Capability
  import DraftGenerator

  datatype Action = AutoSend | HumanReviewWithDraft | EscalateToHuman

  /** The minimum score for sending without review. */
  const Threshold: real := 0.85

  /** The lower edge of the band in which a human reviews the draft. */
  const ReviewFloor: real := 0.70

  /** The keys of a quality report (parsed, or built on failure); a missing key is `None`. */
  datatype QualityReport = QualityReport(
    qualityScore: Option<real>,
    isSafe: Option<bool>,
    needsHumanReview: Option<bool>,
    issues: Option<seq<string>>,
    suggestedEdits: Option<string>,
    action: Option<Action>)

  /**
   * `_determine_action`: missing keys read as score 0, not safe and needing review, so a
   * report lacking either flag escalates. Sending needs an explicitly safe, unflagged
   * report scored at least 0.85; a human reviews one scored from 0.70 up to 0.85.
   */
  function DetermineAction(report: QualityReport): (a: Action)
    ensures a == AutoSend <==>
      report.isSafe == Some(true) && report.needsHumanReview == Some(false) && report.qualityScore.GetOr(0.0) >= Threshold
    ensures a == HumanReviewWithDraft <==>
      && report.isSafe == Some(true) && report.needsHumanReview == Some(false)
      && ReviewFloor <= report.qualityScore.GetOr(0.0) < Threshold
    ensures report.isSafe != Some(true) || report.needsHumanReview != Some(false) ==> a == EscalateToHuman
  {
    var score := report.qualityScore.GetOr(0.0);
    var safe := report.isSafe.GetOr(false);
    var needsHuman := report.needsHumanReview.GetOr(true);
    if !safe || needsHuman then EscalateToHuman
    else if score >= Threshold then AutoSend
    else if score >= ReviewFloor then HumanReviewWithDraft
    else EscalateToHuman
  }

  /** The report returned when the call, the parse or the reading of the reply fails. */
  function FailureReport(message: string): (r: QualityReport)
    ensures r.qualityScore == Some(0.0) && r.isSafe == Some(false) && r.needsHumanReview == Some(true)
    ensures r.issues == Some(["Quality check failed: " + message]) && r.suggestedEdits.None?
    ensures r.action == Some(EscalateToHuman)
  {
    QualityReport(Some(0.0), Some(false), Some(true), Some(["Quality check failed: " + message]), None, Some(EscalateToHuman))
  }

  /** `check_quality`, once the call has produced `reply`; `decode` is `json.loads` and the key reads. */
  function CheckQuality(reply: CallResult, decode: string -> Decoded<QualityReport>): (r: QualityReport)
    ensures r.action.Some?
    ensures ReadReply(reply, decode).Ok? ==>
      r == ReadReply(reply, decode).value.(action := Some(DetermineAction(ReadReply(reply, decode).value)))
    ensures !ReadReply(reply, decode).Ok? ==> r == FailureReport(ReadReply(reply, decode).message)
  {
    match ReadReply(reply, decode)
    case Ok(v) => v.(action := Some(DetermineAction(v)))
    case JsonError(e) => FailureReport(e)
    case OtherError(e) => FailureReport(e)
  }

  /**
   * Whatever the model wrote in its own `action` key, the report's action is the local
   * verdict on the report's fields, and it agrees with a fresh verdict on the report.
   */
  lemma ActionIsRecomputed(reply: CallResult, decode: string -> Decoded<QualityReport>)
    ensures var r := CheckQuality(reply, decode);
      r.action == Some(DetermineAction(r))
  {
  }

  /** A failed check never lets a draft be sent: the failure report escalates, and so does its verdict. */
  lemma FailureEscalates(message: string)
    ensures DetermineAction(FailureReport(message)) == EscalateToHuman
    ensures FailureReport(message).action == Some(EscalateToHuman)
  {
  }

  /** A report lacking either flag is never sent without review. */
  lemma MissingFlagNeverSends(report: QualityReport)
    requires report.isSafe.None? || report.needsHumanReview.None?
    ensures DetermineAction(report) == EscalateToHuman
  {
  }

  /** A safe, unflagged report scored below 0.70 escalates. */
  lemma LowScoreEscalates(report: QualityReport)
    requires report.isSafe == Some(true) && report.needsHumanReview == Some(false)
    requires report.qualityScore.GetOr(0.0) < ReviewFloor
    ensures DetermineAction(report) == EscalateToHuman
  {
  }

  // ---------------------------------------------------------------------------
  // Snippet formatting
  // ---------------------------------------------------------------------------

  const NoSnippets: string := "No snippets provided."

  /** The line for the `i`-th snippet (numbered from 1): "[i] question: answer". */
  function SnippetLine(i: nat, s: DraftGenerator.Snippet): string {
    "[" + NatToString(i) + "] " + s.question.GetOr("N/A") + ": " + s.answer.GetOr("N/A")
  }

  /** One line per snippet, numbered 1 to n in input order. */
  function SnippetLines(ss: seq<DraftGenerator.Snippet>): (r: seq<string>)
    ensures |r| == |ss|
    ensures forall k :: 0 <= k < |ss| ==> r[k] == SnippetLine(k + 1, ss[k])
    decreases |ss|
  {
    if ss == [] then [] else SnippetLines(ss[..|ss| - 1]) + [SnippetLine(|ss|, ss[|ss| - 1])]
  }

  /** What `_format_snippets` returns. */
  function SnippetsText(ss: seq<DraftGenerator.Snippet>): string {
    if ss == [] then NoSnippets else Join(SnippetLines(ss), '\n')
  }

  /** `_format_snippets`: append one line per snippet, then join them with line breaks. */
  method FormatSnippets(snippets: seq<DraftGenerator.Snippet>) returns (text: string)
    ensures text == SnippetsText(snippets)
  {
    if snippets == [] {
      return NoSnippets;
    }
    var formatted: seq<string> := [];
    for i := 0 to |snippets|
      invariant formatted == SnippetLines(snippets[..i])
    {
      assert snippets[..i + 1][..i] == snippets[..i];
      formatted := formatted + [SnippetLine(i + 1, snippets[i])];
    }
    assert snippets[..|snippets|] == snippets;
    text := Join(formatted, '\n');
  }

  lemma SnippetLineHasNoBreak(i: nat, s: DraftGenerator.Snippet)
    requires DraftGenerator.OneLineFields(s)
    ensures '\n' !in SnippetLine(i, s)
  {
    IntToStringHasNoBreak(i);
  }

  /**
   * When no question or answer holds a line break, the formatted text splits back into
   * exactly one line per snippet, the `k`-th reading "[k+1] question: answer".
   */
  lemma SnippetsTextLines(ss: seq<DraftGenerator.Snippet>)
    requires ss != []
    requires forall k :: 0 <= k < |ss| ==> DraftGenerator.OneLineFields(ss[k])
    ensures Split(SnippetsText(ss), '\n') == SnippetLines(ss)
  {
    assert SnippetsText(ss) == Join(SnippetLines(ss), '\n');
    SnippetLinesSplit(ss);
  }

  /** The snippet lines, joined and split again, are given back unchanged. */
  lemma SnippetLinesSplit(ss: seq<DraftGenerator.Snippet>)
    requires ss != []
    requires forall k :: 0 <= k < |ss| ==> DraftGenerator.OneLineFields(ss[k])
    ensures Split(Join(SnippetLines(ss), '\n'), '\n') == SnippetLines(ss)
  {
    var lines := SnippetLines(ss);
    forall k | 0 <= k < |lines| ensures '\n' !in lines[k] {
      SnippetLineHasNoBreak(k + 1, ss[k]);
    }
    SplitJoin(lines, '\n');
  }
}
