/**
 * Intent detection: the mapping from the classifier's reply to the
 * `{category, confidence, reasoning}` record. The reply is stripped of surrounding
 * whitespace and parsed as it is (no code-fence removal at this stage); whatever goes
 * wrong, a record with the fixed "OTHER" category comes back.
 */
module IntentDetector {
  import opened Wrappers
  import opened Text
  import opened Capability

  /** The categories the classifier is asked to choose from. */
  const Categories: seq<string> := [
    "ORDER_TRACKING", "RETURN_REFUND", "PRODUCT_QUESTION", "WARRANTY",
    "TECHNICAL_SUPPORT", "COMPLAINT", "MULTIPLE", "OTHER"
  ]

  const DefaultCategory: string := "OTHER"

  const ParseFailure: string := "Failed to parse response"

  /** The keys read from the parsed reply; a missing key is `None`. */
  datatype IntentReply = IntentReply(category: Option<string>, confidence: Option<real>, reasoning: Option<string>)

  datatype IntentResult = IntentResult(category: string, confidence: real, reasoning: string)

  /** `detect_intent`, once the call has produced `reply`; `decode` is `json.loads` and the key reads. */
  function DetectIntent(reply: CallResult, decode: string -> Decoded<IntentReply>): (r: IntentResult)
    ensures reply.CallFailed? ==> r == IntentResult(DefaultCategory, 0.0, "Error: " + reply.error)
    ensures reply.Returned? ==> match decode(Trim(reply.text))
      case Ok(v) =>
        && (v.category.Some? ==> r.category == v.category.value)
        && (v.category.None? ==> r.category == DefaultCategory)
        && (v.confidence.Some? ==> r.confidence == v.confidence.value)
        && (v.confidence.None? ==> r.confidence == 0.0)
        && (v.reasoning.Some? ==> r.reasoning == v.reasoning.value)
        && (v.reasoning.None? ==> r.reasoning == "")
      case JsonError(_) => r == IntentResult(DefaultCategory, 0.0, ParseFailure)
      case OtherError(e) => r == IntentResult(DefaultCategory, 0.0, "Error: " + e)
  {
    match reply
    case CallFailed(e) => IntentResult(DefaultCategory, 0.0, "Error: " + e)
    case Returned(t) =>
      match decode(Trim(t))
      case Ok(v) => IntentResult(v.category.GetOr(DefaultCategory), v.confidence.GetOr(0.0), v.reasoning.GetOr(""))
      case JsonError(_) => IntentResult(DefaultCategory, 0.0, ParseFailure)
      case OtherError(e) => IntentResult(DefaultCategory, 0.0, "Error: " + e)
  }

  /**
   * A category other than "OTHER", or a non-zero confidence, can only come from a reply
   * that was decoded and carried that value: no failure path produces one.
   */
  lemma OnlyDecodedRepliesClassify(reply: CallResult, decode: string -> Decoded<IntentReply>)
    ensures var r := DetectIntent(reply, decode);
      r.category != DefaultCategory || r.confidence != 0.0 ==>
        && reply.Returned?
        && decode(Trim(reply.text)).Ok?
        && (r.category != DefaultCategory ==> decode(Trim(reply.text)).value.category == Some(r.category))
        && (r.confidence != 0.0 ==> decode(Trim(reply.text)).value.confidence == Some(r.confidence))
  {
  }

  /** The category is not checked against `Categories`: an unlisted one is returned unchanged. */
  lemma UnlistedCategoryKept(text: string, c: string, decode: string -> Decoded<IntentReply>)
    requires c !in Categories
    requires decode(Trim(text)) == Ok(IntentReply(Some(c), None, None))
    ensures DetectIntent(Returned(text), decode) == IntentResult(c, 0.0, "")
    ensures DetectIntent(Returned(text), decode).category !in Categories
  {
  }

  /**
   * The reply is only stripped before parsing: a fenced reply reaches the parser with its
   * fence, so a parser that, like `json.loads`, rejects text starting with a back-tick
   * gives the parse-failure record.
   */
  lemma FencedReplyFails(opening: string, payload: string, decode: string -> Decoded<IntentReply>)
    requires StartsWith(opening, Fence)
    requires forall u :: |u| > 0 && u[0] == '`' ==> decode(u).JsonError?
    ensures DetectIntent(Returned(opening + "\n" + payload), decode) == IntentResult(DefaultCategory, 0.0, ParseFailure)
  {
    var text := opening + "\n" + payload;
    assert text[0] == '`' && !IsSpace('`');
    TrimKeepsFirst(text);
  }
}
