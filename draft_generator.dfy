/**
 * Draft generation: how the drafting model's reply becomes a draft record, the fixed
 * fallback used when anything fails, and the text block that presents knowledge snippets
 * to the model. The persona name is "Norman" on every path.
 */
module DraftGenerator {
  import opened Wrappers
  import opened Text
  import opened Capability

  const PersonaName: string := "Norman"

  const FallbackBody: string :=
    "Thank you for contacting Harmony Music Store. I want to make sure I give you the most accurate information. I'm forwarding your message to our specialist team who will respond within 24 hours."

  /** The keys read from the parsed reply; a missing key is `None`. */
  datatype DraftReply = DraftReply(
    draftBody: Option<string>,
    confidence: Option<real>,
    snippetsUsed: Option<seq<int>>,
    needsHuman: Option<bool>)

  datatype Draft = Draft(body: string, confidence: real, snippetsUsed: seq<int>, needsHuman: bool, persona: string)

  /** `_create_fallback_response`: the same safe record whatever the customer wrote. */
  function FallbackResponse(customerEmail: string): (d: Draft)
    ensures d.confidence == 0.0 && d.snippetsUsed == [] && d.needsHuman && d.persona == PersonaName
    ensures d.body == FallbackBody
  {
    Draft(FallbackBody, 0.0, [], true, PersonaName)
  }

  /** `generate_draft`, once the call has produced `reply`; `decode` is `json.loads` and the key reads. */
  function GenerateDraft(customerEmail: string, reply: CallResult, decode: string -> Decoded<DraftReply>): (d: Draft)
    ensures d.persona == PersonaName
    ensures !ReadReply(reply, decode).Ok? ==> d == FallbackResponse(customerEmail)
    ensures ReadReply(reply, decode).Ok? ==> var v := ReadReply(reply, decode).value;
      && (v.draftBody.Some? ==> d.body == v.draftBody.value) && (v.draftBody.None? ==> d.body == "")
      && (v.confidence.Some? ==> d.confidence == v.confidence.value) && (v.confidence.None? ==> d.confidence == 0.0)
      && (v.snippetsUsed.Some? ==> d.snippetsUsed == v.snippetsUsed.value) && (v.snippetsUsed.None? ==> d.snippetsUsed == [])
      && (v.needsHuman.Some? ==> d.needsHuman == v.needsHuman.value) && (v.needsHuman.None? ==> d.needsHuman)
  {
    match ReadReply(reply, decode)
    case Ok(v) =>
      Draft(v.draftBody.GetOr(""), v.confidence.GetOr(0.0), v.snippetsUsed.GetOr([]), v.needsHuman.GetOr(true), PersonaName)
    case _ => FallbackResponse(customerEmail)
  }

  /** A draft is marked as not needing a human only when a decoded reply says so explicitly. */
  lemma NoHumanOnlyWhenSaid(customerEmail: string, reply: CallResult, decode: string -> Decoded<DraftReply>)
    ensures !GenerateDraft(customerEmail, reply, decode).needsHuman ==>
      ReadReply(reply, decode).Ok? && ReadReply(reply, decode).value.needsHuman == Some(false)
  {
  }

  /** A fenced reply is read exactly as its bare payload would be, whatever tag follows the opening fence. */
  lemma FencedDraftReply(customerEmail: string, opening: string, payload: string, decode: string -> Decoded<DraftReply>)
    requires StartsWith(opening, Fence) && '\n' !in opening
    requires !StartsWith(Trim(payload), Fence)
    ensures GenerateDraft(customerEmail, Returned(opening + "\n" + payload + "\n" + Fence), decode)
         == GenerateDraft(customerEmail, Returned(payload), decode)
  {
    FencedReplyPayload(opening, payload);
  }

  const EscalationPhrase: string := "pass this to our team"

  /**
   * The escalation phrases are an instruction in the prompt only: a decoded reply whose
   * body contains one and that says `needs_human: false` yields a draft that does not
   * need a human.
   */
  lemma EscalationPhraseNotEnforced(customerEmail: string, text: string)
    ensures var decode := (u: string) => Ok(DraftReply(Some(EscalationPhrase), Some(0.95), None, Some(false)));
      var d := GenerateDraft(customerEmail, Returned(text), decode);
      Contains(d.body, EscalationPhrase) && !d.needsHuman && d.confidence == 0.95
  {
    assert OccursAt(EscalationPhrase, EscalationPhrase, 0);
  }

  /**
   * Nothing checks the body for escalation phrases: whenever a decoded reply says
   * `needs_human: false`, the draft does not need a human, whatever its body says.
   */
  lemma NeedsHumanTakenAsSaid(customerEmail: string, reply: CallResult, decode: string -> Decoded<DraftReply>)
    requires ReadReply(reply, decode).Ok? && ReadReply(reply, decode).value.needsHuman == Some(false)
    ensures var d := GenerateDraft(customerEmail, reply, decode);
      !d.needsHuman && d.body == ReadReply(reply, decode).value.draftBody.GetOr("")
  {
  }

  // ---------------------------------------------------------------------------
  // Snippet formatting
  // ---------------------------------------------------------------------------

  /** A knowledge snippet as the drafting stage reads it; a missing key is `None`. */
  datatype Snippet = Snippet(id: Option<int>, category: Option<string>, question: Option<string>, answer: Option<string>)

  const NoSnippets: string := "No relevant snippets found."

  function IdText(s: Snippet): string {
    match s.id
    case Some(i) => IntToString(i)
    case None => "unknown"
  }

  /** The first line of a snippet's block: its number and id. */
  function Header(i: nat, s: Snippet): string {
    "[Snippet " + NatToString(i) + "] ID: " + IdText(s)
  }

  /**
   * The lines of the `i`-th snippet's block (numbered from 1): an empty line, the header,
   * the category, question and answer lines, and an empty line.
   */
  function BlockLines(i: nat, s: Snippet): seq<string> {
    ["", Header(i, s), "Category: " + s.category.GetOr("N/A"), "Q: " + s.question.GetOr("N/A"),
     "A: " + s.answer.GetOr("N/A"), ""]
  }

  /** The block for the `i`-th snippet: its lines joined by line breaks, so it starts and ends with one. */
  function Block(i: nat, s: Snippet): string {
    Join(BlockLines(i, s), '\n')
  }

  /** One block per snippet, numbered 1 to n in input order. */
  function Blocks(ss: seq<Snippet>): (r: seq<string>)
    ensures |r| == |ss|
    ensures forall k :: 0 <= k < |ss| ==> r[k] == Block(k + 1, ss[k])
    decreases |ss|
  {
    if ss == [] then []
    else
      var front := Blocks(ss[..|ss| - 1]);
      var last := Block(|ss|, ss[|ss| - 1]);
      BlocksAppend(ss, front, last);
      front + [last]
  }

  lemma BlocksAppend(ss: seq<Snippet>, front: seq<string>, last: string)
    requires |ss| > 0 && |front| == |ss| - 1
    requires forall k :: 0 <= k < |front| ==> front[k] == Block(k + 1, ss[..|ss| - 1][k])
    requires last == Block(|ss|, ss[|ss| - 1])
    ensures forall k :: 0 <= k < |ss| ==> (front + [last])[k] == Block(k + 1, ss[k])
  {
    forall k | 0 <= k < |ss| ensures (front + [last])[k] == Block(k + 1, ss[k]) {
      if k < |front| {
        assert ss[..|ss| - 1][k] == ss[k];
      }
    }
  }

  /** What `_format_snippets` returns. */
  function SnippetsText(ss: seq<Snippet>): string {
    if ss == [] then NoSnippets else Join(Blocks(ss), '\n')
  }

  /** `_format_snippets`: append one block per snippet, then join them with line breaks. */
  method FormatSnippets(snippets: seq<Snippet>) returns (text: string)
    ensures text == SnippetsText(snippets)
  {
    if snippets == [] {
      return NoSnippets;
    }
    var formatted: seq<string> := [];
    for i := 0 to |snippets|
      invariant formatted == Blocks(snippets[..i])
    {
      assert snippets[..i + 1][..i] == snippets[..i];
      formatted := formatted + [Block(i + 1, snippets[i])];
    }
    assert snippets[..|snippets|] == snippets;
    text := Join(formatted, '\n');
  }

  /** The lines of every block, in order: six per snippet. */
  function AllLines(ss: seq<Snippet>): (r: seq<string>)
    ensures |r| == 6 * |ss|
    decreases |ss|
  {
    if ss == [] then [] else AllLines(ss[..|ss| - 1]) + BlockLines(|ss|, ss[|ss| - 1])
  }

  /** The lines `6 * k` to `6 * k + 5` of all the lines are the `k`-th snippet's block lines. */
  lemma AllLinesAt(ss: seq<Snippet>)
    ensures forall k :: 0 <= k < |ss| ==> AllLines(ss)[6 * k..6 * k + 6] == BlockLines(k + 1, ss[k])
  {
    forall k | 0 <= k < |ss| ensures AllLines(ss)[6 * k..6 * k + 6] == BlockLines(k + 1, ss[k]) {
      AllLinesBlock(ss, k);
    }
  }

  lemma {:induction false} AllLinesBlock(ss: seq<Snippet>, k: nat)
    requires k < |ss|
    ensures AllLines(ss)[6 * k..6 * k + 6] == BlockLines(k + 1, ss[k])
    decreases |ss|
  {
    var front := ss[..|ss| - 1];
    var f, b := AllLines(front), BlockLines(|ss|, ss[|ss| - 1]);
    assert AllLines(ss) == f + b;
    if k < |front| {
      AllLinesBlock(front, k);
      assert front[k] == ss[k];
      SliceOfFront(f, b, 6 * k, 6 * k + 6);
    } else {
      SliceOfBack(f, b);
    }
  }

  lemma SliceOfFront(f: seq<string>, b: seq<string>, lo: nat, hi: nat)
    requires lo <= hi <= |f|
    ensures (f + b)[lo..hi] == f[lo..hi]
  {
  }

  lemma SliceOfBack(f: seq<string>, b: seq<string>)
    ensures (f + b)[|f|..|f| + |b|] == b
  {
  }

  /** No field of the snippet holds a line break. */
  predicate OneLineFields(s: Snippet) {
    '\n' !in s.category.GetOr("") && '\n' !in s.question.GetOr("") && '\n' !in s.answer.GetOr("")
  }

  lemma HeaderHasNoBreak(i: nat, s: Snippet)
    ensures '\n' !in Header(i, s)
  {
    IntToStringHasNoBreak(i);
    IntToStringHasNoBreak(s.id.GetOr(0));
    assert '\n' !in IdText(s);
  }

  lemma LinesHaveNoBreak(i: nat, s: Snippet)
    requires OneLineFields(s)
    ensures forall k :: 0 <= k < 6 ==> '\n' !in BlockLines(i, s)[k]
  {
    HeaderHasNoBreak(i, s);
  }

  lemma {:induction false} BlocksAreLines(ss: seq<Snippet>)
    requires ss != []
    ensures Join(Blocks(ss), '\n') == Join(AllLines(ss), '\n')
    decreases |ss|
  {
    var front := ss[..|ss| - 1];
    var b := Block(|ss|, ss[|ss| - 1]);
    if front == [] {
      assert Blocks(ss) == [b];
      assert AllLines(ss) == BlockLines(|ss|, ss[|ss| - 1]);
    } else {
      BlocksAreLines(front);
      JoinAppend(Blocks(front), [b], '\n');
      JoinAppend(AllLines(front), BlockLines(|ss|, ss[|ss| - 1]), '\n');
    }
  }

  lemma {:induction false} AllLinesHaveNoBreak(ss: seq<Snippet>)
    requires forall k :: 0 <= k < |ss| ==> OneLineFields(ss[k])
    ensures forall m :: 0 <= m < |AllLines(ss)| ==> '\n' !in AllLines(ss)[m]
    decreases |ss|
  {
    if ss != [] {
      var front := ss[..|ss| - 1];
      AllLinesHaveNoBreak(front);
      LinesHaveNoBreak(|ss|, ss[|ss| - 1]);
      var f, b := AllLines(front), BlockLines(|ss|, ss[|ss| - 1]);
      forall m | 0 <= m < |f + b| ensures '\n' !in (f + b)[m] {
        if m >= |f| { assert (f + b)[m] == b[m - |f|]; }
      }
    }
  }

  /**
   * When no field holds a line break, the formatted text splits back into the lines of
   * the blocks, six per snippet in input order: for the `k`-th snippet an empty line, the
   * header "[Snippet k+1] ID: …", its category, question and answer, and an empty line.
   */
  lemma SnippetsTextLines(ss: seq<Snippet>)
    requires ss != []
    requires forall k :: 0 <= k < |ss| ==> OneLineFields(ss[k])
    ensures Split(SnippetsText(ss), '\n') == AllLines(ss)
  {
    SnippetsTextIsJoin(ss);
    AllLinesSplit(ss);
  }

  /** The lines of the blocks, joined and split again, are given back unchanged. */
  lemma AllLinesSplit(ss: seq<Snippet>)
    requires ss != []
    requires forall k :: 0 <= k < |ss| ==> OneLineFields(ss[k])
    ensures Split(Join(AllLines(ss), '\n'), '\n') == AllLines(ss)
  {
    AllLinesHaveNoBreak(ss);
    SplitJoin(AllLines(ss), '\n');
  }

  /** The formatted text is the lines of all blocks joined by line breaks. */
  lemma SnippetsTextIsJoin(ss: seq<Snippet>)
    requires ss != []
    ensures SnippetsText(ss) == Join(AllLines(ss), '\n')
  {
    BlocksAreLines(ss);
  }
}
