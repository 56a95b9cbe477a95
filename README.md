# Customer-support email pipeline: a Dafny model

This project models the deterministic logic of a customer-support email pipeline for a music
store. Each email goes through these stages:

1. **Preprocessing.** Subject and body are joined, whitespace is collapsed, order numbers are
   extracted with two regular expressions, and urgency is graded.
2. **Intent detection.** A language model classifies the email.
3. **Knowledge retrieval.** FAQs are filtered by category and ranked by a model, with a
   fallback when ranking fails.
4. **Draft generation.** A model writes a reply in the "Norman" persona.
5. **Quality check.** A model scores the draft, and the checker's own table derives an action.
6. **Routing.** A final router chooses AUTO_SEND, HUMAN_REVIEW_WITH_DRAFT or ESCALATE_TO_HUMAN,
   and the driver counts the outcomes.

The language model is outside the model. Each call is a `CallResult`: either the exception's
message or the reply text. `json.loads` together with the reading of the parsed object is a
decoder function passed in by the caller. Its outcome is a `Decoded<T>`:

- `Ok` with the object read, where a missing key is `None`;
- `JsonError` for a parse failure;
- `OtherError` for any other exception.

Everything the code does with a reply is modelled: fence stripping, default filling, fallback
records, the two decision tables, id resolution and the counters.

Modules, one per source file plus three shared ones:

- `Wrappers` (wrappers.dfy): the `Option` type, for a dictionary key that may be absent.
- `Text` (text.dfy): the Python `str` operations used by the pipeline.
- `Capability` (capability.dfy): the model-call boundary and code-fence stripping.
- `EmailProcessor` (email_processor.dfy).
- `IntentDetector` (intent_detector.dfy).
- `RagSystem` (rag_system.dfy): the `RAGSystem` class holds the FAQ list as a `const` field.
- `DraftGenerator` (draft_generator.dfy).
- `QualityChecker` (quality_checker.dfy).
- `Workflow` (workflow.dfy): the driver script `src/test_full_workflow.py`.

Loops in the source are methods with loop invariants, each proved equal to a specification
function:

- `ExtractOrderNumbers` (the loop over patterns);
- `ResolveRanked` (the loop over ranked ids);
- the two `FormatSnippets` methods;
- `Drive` (the counter loop).

## Model

| member | source | states |
|---|---|---|
| EmailProcessor.OrderNumbers | src/email_processor.py:10-24 | what `extract_order_number` returns; its contract is stated by `OrderNumbersExactly` and `ExtractOrderNumbers` |
| EmailProcessor.MatchAt | src/email_processor.py:13-16 | one attempt of a pattern at an offset; a match ends after its start and within the text. What it captures is stated by `MatchIsOrderNumber` and `NoMatchInside` |
| EmailProcessor.FindAllFrom | src/email_processor.py:21 | `re.findall` as a left-to-right scan resuming after each match; its contract is stated by `FindAllSound` and `FindAllComplete` |
| EmailProcessor.Dedup | src/email_processor.py:24 | `list(set(...))`: the result has no repeats and holds exactly the elements of the input |
| EmailProcessor.ExtractOrderNumbers | src/email_processor.py:10-24 | the loop over the three patterns returns a list without repeats. Its elements are exactly the order numbers of the text under the reference definition `IsOrderNumber` |
| EmailProcessor.OrderNumbersExactly | src/email_processor.py:10-24 | the extracted list has no repeats, and `c` is in it iff `c` is a whole run of at least five digits preceded by `#`, or by "order" in any case and one or more `:`/whitespace characters (with an optional `#`) |
| EmailProcessor.MatchIsOrderNumber | src/email_processor.py:13-16 | whatever one of the three patterns captures at an offset is an order number |
| EmailProcessor.KeywordSpellings | src/email_processor.py:15-16 | under case-insensitive matching, the "order" and "Order" patterns are the same pattern |
| EmailProcessor.FindAllSound | src/email_processor.py:21 | every capture of the left-to-right non-overlapping `findall` scan is an order number |
| EmailProcessor.NoMatchInside | src/email_processor.py:14-16 | no match of a pattern starts inside another match of the same pattern, so resuming after a match loses nothing |
| EmailProcessor.FindAllComplete | src/email_processor.py:21 | every match at or after an offset is among the `findall` captures from that offset |
| EmailProcessor.OrderNumberIsMatched | src/email_processor.py:13-16 | every order number is captured by the `#` pattern or the keyword pattern at some offset |
| EmailProcessor.MatchOfSomePattern | src/email_processor.py:20-22 | every element of the accumulated list comes from one of the patterns |
| EmailProcessor.PatternMatchIsKept | src/email_processor.py:20-22 | every capture of any pattern ends up in the accumulated list |
| EmailProcessor.SingleNumber | src/email_processor.py:13-24 | a text whose only digits are one final run of at least five, after `#` or after "order" and separators, yields the list holding that run alone |
| EmailProcessor.HashExample | src/email_processor.py:14 | "#45823" yields the list `["45823"]` |
| EmailProcessor.ColonExample | src/email_processor.py:15 | "order: 45823" yields the list `["45823"]` |
| EmailProcessor.UpperCaseExample | src/email_processor.py:15-16 | "ORDER #45823" yields the list `["45823"]` |
| EmailProcessor.ShortNumberExample | src/email_processor.py:14 | a `#` followed by only four digits yields the empty list |
| EmailProcessor.DetectUrgency | src/email_processor.py:27-50 | `detect_urgency`; its contract is stated by `UrgencyTable` |
| EmailProcessor.UrgencyTable | src/email_processor.py:27-50 | HIGH iff at least two distinct keywords occur (case-insensitively), or capitals are over 30% of all characters, or "!!!" occurs. Otherwise MEDIUM iff exactly one keyword occurs, and LOW iff none does |
| EmailProcessor.CountPresentDistinct | src/email_processor.py:43 | the generator sum over the keyword list counts the distinct keywords that occur |
| EmailProcessor.CapsRatioInIntegers | src/email_processor.py:38 | `caps_ratio > 0.3`, with ratio 0 for empty text, is the integer test `10 * upper > 3 * len` |
| EmailProcessor.Collapse | src/email_processor.py:70 | `re.sub(r'\s+', ' ', s)`: a non-empty text collapses to a non-empty text that starts with whitespace iff the input does. The exact result is stated by `CollapseWords` |
| EmailProcessor.Clean | src/email_processor.py:70 | the cleaned text; its contract is stated by `CleanIsJoinedWords` and `CleanShape` |
| EmailProcessor.Words | src/email_processor.py:70 | the maximal runs of non-whitespace characters, in order; each is non-empty and holds no whitespace |
| EmailProcessor.CollapseWords | src/email_processor.py:70 | collapsing gives the words joined by single spaces, with one space in front iff the text starts with whitespace, and one behind iff it ends with whitespace after a word |
| EmailProcessor.CleanIsJoinedWords | src/email_processor.py:70 | the cleaned text is exactly the words of the text joined by single spaces |
| EmailProcessor.CollapseShape | src/email_processor.py:70 | collapsing leaves only single plain spaces and keeps every other character, in order |
| EmailProcessor.CollapseFixed | src/email_processor.py:70 | collapsing changes nothing in text that is already single-spaced |
| EmailProcessor.CleanShape | src/email_processor.py:70 | the cleaned text has only single plain spaces, none at either end, and keeps every non-whitespace character in order |
| EmailProcessor.CleanIdempotent | src/email_processor.py:70 | cleaning cleaned text changes nothing |
| EmailProcessor.WellSpacedIsClean | src/email_processor.py:70 | text in the cleaned shape is its own cleaning |
| EmailProcessor.DotSurvives | src/email_processor.py:67-70 | the "." joining subject and body survives cleaning |
| EmailProcessor.PreprocessEmail | src/email_processor.py:53-84 | missing subject or body default to "". The cleaned text is the words of `"{subject}. {body}"` joined by single spaces. It is in the cleaned shape, keeps the non-space characters of `"{subject}. {body}"`, contains "." and has length at least 1. `length` is its length. The order numbers are exactly those of the cleaned text, without repeats. `has_order_number` holds iff there are some. Urgency is graded on the cleaned text |
| IntentDetector.DetectIntent | src/intent_detector.py:64-99 | a decoded reply's category, confidence and reasoning are copied, defaulting to "OTHER", 0.0 and "". A parse failure gives ("OTHER", 0.0, "Failed to parse response"). Any other failure gives ("OTHER", 0.0, "Error: " + message) |
| IntentDetector.OnlyDecodedRepliesClassify | src/intent_detector.py:79-98 | a category other than "OTHER", or a non-zero confidence, comes only from a decoded reply that carried it |
| IntentDetector.UnlistedCategoryKept | src/intent_detector.py:18-27 | a category outside the list of eight is returned unchanged |
| IntentDetector.FencedReplyFails | src/intent_detector.py:74-92 | the reply is only stripped before parsing, so a fenced reply gets the parse-failure record when the parser rejects a leading back-tick |
| Capability.FencedPayload | src/draft_generator.py:128-139 | the text a stage hands to `json.loads`: the reply stripped, then unfenced; its contract is stated by `FencedReplyPayload` |
| Capability.ReadReply | src/draft_generator.py:119-142 | a failed call surfaces as its exception, a returned reply is decoded from its payload; its contract is stated by `FencedReplyPayload` and the stages' lemmas |
| Capability.Unfence | src/draft_generator.py:131-139 | text not starting with three back-ticks is unchanged. Otherwise the result has no whitespace at either end |
| Capability.UnfenceAfterOpening | src/draft_generator.py:133-135 | the opening line of a fenced text is dropped whatever tag follows the back-ticks |
| Capability.ClosingLine | src/draft_generator.py:136-138 | a last line that is a closing fence is dropped |
| Capability.FencedRoundTrip | src/draft_generator.py:131-139 | an opening line, a payload and a closing fence unfence to the stripped payload |
| Capability.FencedReplyPayload | src/quality_checker.py:103-114 | the text handed to the parser for a fenced reply is the stripped payload |
| Capability.OpeningFenceAlone | src/rag_system.py:100-106 | the opening line is dropped even when no closing fence follows |
| Capability.SingleLineFence | src/rag_system.py:100-106 | a fenced reply on one line, such as a lone fence, unfences to "" |
| Text.JoinSplit | src/draft_generator.py:133-139 | joining the pieces of `split('\n')` gives back the text |
| Text.SplitJoin | src/draft_generator.py:175 | splitting the join of pieces that hold no line break gives back the pieces |
| Text.SplitAround | src/draft_generator.py:133 | splitting at a separator between two texts splits each text on its own |
| Text.TrimIsSlice | src/email_processor.py:70 | `strip()` keeps one contiguous slice of the text |
| Text.NonSpaceOfTrim | src/email_processor.py:70 | `strip()` removes whitespace only |
| Text.IntToStringHasNoBreak | src/draft_generator.py:169 | a rendered integer holds no line break |
| RagSystem.Candidates | src/rag_system.py:40-44 | an FAQ is a candidate iff it is stored and, when the filter applies (a non-empty category other than "OTHER" and "MULTIPLE"), has that category |
| RagSystem.Retrieve | src/rag_system.py:115-121 | none iff no candidate has the ranked id. Otherwise a candidate with that id, with the entry's score (0.5 when absent) and reason ("" when absent) |
| RagSystem.Select | src/rag_system.py:85-130 | the ranked path or the fallback; its contract is stated by `SelectAtMostTopK`, `SelectReturnsCandidates`, `MissingIdFallsBack`, `FailureFallsBack` and `NoRankingGivesNothing` |
| RagSystem.Search | src/rag_system.py:26-130 | `search_relevant_faqs`; its contract is stated by `SearchAtMostTopK` and `SearchReturnsCandidates` |
| RagSystem.InCategory | src/rag_system.py:42 | the category filter keeps exactly the entries of that category, every one of that category, no more than the input |
| RagSystem.InCategoryAppend | src/rag_system.py:42 | filtering distributes over concatenation, so storage order is kept |
| RagSystem.FindById | src/rag_system.py:116 | `next(...)` gives the first candidate with the id, or `None` exactly when no candidate has it |
| RagSystem.Resolve | src/rag_system.py:113-124 | the ranked-id loop gives `None` exactly when an entry lacks an id, and otherwise no more entries than ids visited |
| RagSystem.RAGSystem.constructor | src/rag_system.py:16-22 | the FAQ list is set once |
| RagSystem.RAGSystem.ResolveRanked | src/rag_system.py:113-124 | the loop computes `Resolve` |
| RagSystem.RAGSystem.SearchRelevantFaqs | src/rag_system.py:26-130 | the method computes `Search`: filter, short-circuit, resolve or fall back |
| RagSystem.RAGSystem.SearchMultiCategory | src/rag_system.py:132-143 | the result equals a search with no category, and equally one with "MULTIPLE" |
| RagSystem.AsStored | src/rag_system.py:47-48 | the short list and the fallback return stored entries without relevance fields |
| RagSystem.SearchAtMostTopK | src/rag_system.py:47-130 | every search returns at most `top_k` entries |
| RagSystem.SelectAtMostTopK | src/rag_system.py:109-130 | the ranked path and the fallback each return at most `top_k` entries |
| RagSystem.SearchReturnsCandidates | src/rag_system.py:41-130 | every returned entry is a candidate and a stored FAQ. When the filter applies, it has the requested category |
| RagSystem.SelectReturnsCandidates | src/rag_system.py:109-130 | the ranked path and the fallback return only candidates |
| RagSystem.ResolvedAreCandidates | src/rag_system.py:115-122 | each ranked-path entry is the first candidate with its id, with relevance fields attached |
| RagSystem.KnownRefs | src/rag_system.py:114-117 | the ranked entries whose id names a candidate, in ranking order, repeats kept |
| RagSystem.ResolvedFollowsRanking | src/rag_system.py:114-122 | the ranked path returns one entry per ranked entry naming a candidate, in ranking order: the `j`-th is the first candidate with that entry's id and carries its score (0.5 when absent) and reason ("" when absent) |
| RagSystem.MissingIdFallsBack | src/rag_system.py:115 | a ranked entry without an id among the first `top_k` gives the fallback `candidates[:top_k]` |
| RagSystem.FailureFallsBack | src/rag_system.py:126-130 | a failed call or undecodable reply gives `candidates[:top_k]` in storage order |
| RagSystem.NoRankingGivesNothing | src/rag_system.py:110 | a decoded reply without `ranked_faqs` gives an empty list, not the fallback |
| DraftGenerator.FallbackResponse | src/draft_generator.py:177-185 | the fallback has the fixed body, confidence 0.0, no snippets, needs a human, and persona "Norman" |
| DraftGenerator.GenerateDraft | src/draft_generator.py:119-159 | persona is "Norman" on every path. Any failure gives the fallback. A decoded reply's fields are copied, defaulting to "", 0.0, [] and needs-human true |
| DraftGenerator.NoHumanOnlyWhenSaid | src/draft_generator.py:148 | a draft is marked as not needing a human only when a decoded reply says `needs_human: false` |
| DraftGenerator.FencedDraftReply | src/draft_generator.py:128-142 | a fenced reply gives the same draft as its bare payload |
| DraftGenerator.EscalationPhraseNotEnforced | src/draft_generator.py:144-150 | a body containing an escalation phrase with `needs_human: false` gives a draft that does not need a human |
| DraftGenerator.NeedsHumanTakenAsSaid | src/draft_generator.py:144-150 | any decoded reply saying `needs_human: false` gives a draft that does not need a human, whatever its body |
| DraftGenerator.Blocks | src/draft_generator.py:166-173 | one block per snippet, the `k`-th numbered `k+1` |
| DraftGenerator.FormatSnippets | src/draft_generator.py:161-175 | the loop computes `SnippetsText`: the no-snippets text for [], else the blocks joined by line breaks |
| DraftGenerator.BlocksAreLines | src/draft_generator.py:168-175 | joining the blocks is joining all their lines |
| DraftGenerator.AllLinesAt | src/draft_generator.py:168-173 | lines `6k` to `6k+5` are the `k`-th snippet's block: an empty line, header, category, question, answer, an empty line |
| DraftGenerator.SnippetsTextLines | src/draft_generator.py:161-175 | when no field holds a line break, the formatted text splits back into the blocks' lines |
| QualityChecker.DetermineAction | src/quality_checker.py:131-144 | AUTO_SEND iff explicitly safe, not flagged and score at least 0.85. HUMAN_REVIEW_WITH_DRAFT iff safe, unflagged and 0.70 ≤ score < 0.85. Unsafe or flagged escalates |
| QualityChecker.FailureReport | src/quality_checker.py:121-129 | the failure report has score 0.0, unsafe, flagged, one issue "Quality check failed: …", and escalates |
| QualityChecker.CheckQuality | src/quality_checker.py:94-129 | a decoded report keeps its fields and gets the locally computed action. Any failure gives the failure report |
| QualityChecker.ActionIsRecomputed | src/quality_checker.py:117 | the report's action is always the local verdict on its own fields |
| QualityChecker.FailureEscalates | src/quality_checker.py:121-144 | the failure report escalates, and so does a fresh verdict on it |
| QualityChecker.MissingFlagNeverSends | src/quality_checker.py:133-138 | a report lacking `is_safe` or `needs_human_review` escalates |
| QualityChecker.LowScoreEscalates | src/quality_checker.py:141-144 | a safe, unflagged report scored below 0.70 escalates |
| QualityChecker.SnippetLines | src/quality_checker.py:151-153 | one line per snippet, the `k`-th reading "[k+1] question: answer" |
| QualityChecker.FormatSnippets | src/quality_checker.py:146-155 | the loop computes `SnippetsText` |
| QualityChecker.SnippetsTextLines | src/quality_checker.py:146-155 | when no question or answer holds a line break, the text splits back into exactly the snippet lines |
| Workflow.Route | src/test_full_workflow.py:128-154 | the final confidence is the minimum of the two. Escalation iff unsafe or urgency HIGH. AUTO_SEND iff safe, not HIGH, neither flag set and both confidences ≥ 0.85. The safety reason fires iff unsafe; the urgency reason iff safe and HIGH; the flag reason iff safe, not HIGH and a flag is set; the high-confidence reason iff AUTO_SEND; the low-confidence reason iff safe, not HIGH, no flag and a confidence below 0.85 |
| Workflow.RoutingInputOf | src/test_full_workflow.py:114-132 | the router's inputs are read from the stage results. There are none (the run stops) iff the report lacks a key the driver indexes |
| Workflow.TopK | src/test_full_workflow.py:69-74 | `top_k` is 5 iff the email is complex or classified MULTIPLE, and 3 otherwise |
| Workflow.ProcessEmail | src/test_full_workflow.py:51-154 | each stage result is that stage applied to the email: preprocessing of subject and body, intent detection, `top_k` from complexity and category, the search with the detected category, the draft and the quality report. `top_k` is 3 or 5. At most `top_k` FAQs are retrieved. The decision is the router's verdict on the stage results, or none when the report lacks a key |
| Workflow.FailedCheckEscalates | src/test_full_workflow.py:135-138 | fed the QC failure report, the router escalates |
| Workflow.FallbackDraftNeverSent | src/test_full_workflow.py:130-154 | fed the draft fallback, the router never chooses AUTO_SEND |
| Workflow.RouterStricterThanChecker | src/test_full_workflow.py:130-150 | whatever the router sends, the checker's own table would also send |
| Workflow.TablesDiffer | src/test_full_workflow.py:135-154 | the two tables disagree: on a safe report scored 0.5, and on a report the checker sends when urgency is HIGH |
| Workflow.FailedQualityStageEscalates | src/test_full_workflow.py:109-138 | an email whose quality check fails is escalated |
| Workflow.FailedDraftNeverSent | src/test_full_workflow.py:89-154 | an email whose drafting fails is never sent automatically |
| Workflow.ProcessedMatches | src/test_full_workflow.py:36-166 | the processed decisions are the outcomes up to the first email that stops the run |
| Workflow.ProcessedPrefix | src/test_full_workflow.py:36-166 | any list of decisions matching the outcomes up to the end, or up to a stopping email, is the processed list |
| Workflow.CountsPartition | src/test_full_workflow.py:135-154 | every decision is counted under exactly one action |
| Workflow.CountAppend | src/test_full_workflow.py:138-154 | one more decision adds one to its own action's count and leaves the others unchanged |
| Workflow.Drive | src/test_full_workflow.py:29-166 | the counter loop: `total` is the number of processed emails, each action counter counts its action among them, and the three sum to `total`. The run completes iff every email was processed |
| Workflow.RunWorkflow | src/test_full_workflow.py:14-166 | the same counters, over the whole pipeline applied to each email |

## Left out

- The `anthropic` client calls and every prompt text. A call is a `CallResult` input, so the
  escalation phrases, confidence bands and scoring weights in the prompts are not modelled.
  They are instructions to the model, not code.
- `json.loads` and the dictionary reads after it are a decoder function passed in by the
  caller. The JSON value types are assumed to be the ones the code expects. A non-numeric score,
  for example, would raise during a comparison or a format and is not modelled.
- Loading the FAQ file (src/rag_system.py:20-22) and the test emails, every `main()` and every
  `print`, `dotenv`, and test_setup.py.
- The `[6:10]` slice of the test emails (src/test_full_workflow.py:36). The driver runs over
  whatever list it is given.
- The printed reason strings, the emoji action labels and the percentages. The reason is an
  enumeration naming which table row fired.
- The quality report's `breakdown` and any other keys the model returns. The report holds the
  keys the code reads or writes.
- The ranking prompt's FAQ listing (src/rag_system.py:51-54), which only feeds the prompt.
- Workflow.Drive: takes the per-email pipeline as a function. RunWorkflow passes the real one.
- Scores and confidences are `real`, not floating point.
- `\d`, `isupper` and `lower` are restricted to ASCII. Python's Unicode digits and case
  folding are not modelled. Whitespace follows `str.isspace()` in full.
- EmailProcessor.Dedup: keeps first occurrences. Python's `list(set(...))` leaves the order
  unspecified, so the contracts fix only the elements and the absence of repeats.
- RagSystem.Search: `top_k` is a `nat`. The driver only passes 3 or 5, and a negative `top_k`
  would change slice semantics.
- The test email's `id`, which the driver only prints. A missing `id`, like a missing subject
  or body, would raise a KeyError before the email is processed; the model takes all three as
  present.
- RagSystem.Retrieve: an FAQ entry is assumed non-empty, so `if faq:` is always true for a
  found entry.
- The copy made by `faq.copy()` and the aliasing of the returned entries. A retrieved entry is
  a value: the stored entry plus optional relevance fields.
- Concurrency: the source has none.
