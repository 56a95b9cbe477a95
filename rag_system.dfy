/**
 * Knowledge retrieval: which FAQ entries the drafting stage sees. The stored FAQs are
 * filtered by category; a short list is returned as it is; otherwise the ranker's reply
 * (a list of ids with scores) is resolved against the candidates, and any failure falls
 * back to the first `top_k` candidates in storage order.
 */
module RagSystem {
  import opened Wrappers
  import opened Capability

  datatype Faq = Faq(id: int, category: string, question: string, answer: string)

  /** The fields the ranked path adds to its copy of an FAQ. */
  datatype Relevance = Relevance(score: real, reason: string)

  /** An FAQ as returned: the stored entry itself (`relevance == None`), or a copy with relevance fields. */
  datatype RetrievedFaq = RetrievedFaq(faq: Faq, relevance: Option<Relevance>)

  /** One entry of the ranker's `ranked_faqs` list; a missing key is `None`. */
  datatype RankedRef = RankedRef(id: Option<int>, score: Option<real>, reason: Option<string>)

  /** The ranker's parsed reply; `None` when it has no `ranked_faqs` key. */
  datatype RankingReply = RankingReply(rankedFaqs: Option<seq<RankedRef>>)

  const DefaultScore: real := 0.5

  /** The relevance fields the ranked path attaches for one ranked entry. */
  function RelevanceOf(ref: RankedRef): Relevance {
    Relevance(ref.score.GetOr(DefaultScore), ref.reason.GetOr(""))
  }

  /** The category filter applies to a non-empty category other than "OTHER" and "MULTIPLE". */
  predicate Filters(category: Option<string>) {
    category.Some? && category.value != "" && category.value != "OTHER" && category.value != "MULTIPLE"
  }

  /** The FAQs of one category, in storage order. */
  function InCategory(faqs: seq<Faq>, c: string): (r: seq<Faq>)
    ensures |r| <= |faqs|
    ensures forall f :: f in r <==> f in faqs && f.category == c
    ensures forall k :: 0 <= k < |r| ==> r[k].category == c
    decreases |faqs|
  {
    if faqs == [] then []
    else
      var front := InCategory(faqs[..|faqs| - 1], c);
      var f := faqs[|faqs| - 1];
      assert faqs == faqs[..|faqs| - 1] + [f];
      if f.category == c then front + [f] else front
  }

  /** Filtering splits over a concatenation of FAQ lists, so storage order is kept. */
  lemma {:induction false} InCategoryAppend(a: seq<Faq>, b: seq<Faq>, c: string)
    ensures InCategory(a + b, c) == InCategory(a, c) + InCategory(b, c)
    decreases |b|
  {
    if b != [] {
      var b' := b[..|b| - 1];
      assert (a + b)[..|a + b| - 1] == a + b';
      InCategoryAppend(a, b', c);
    } else {
      assert a + b == a;
    }
  }

  /** The candidate FAQs: the category's entries when the filter applies, every entry otherwise. */
  function Candidates(faqs: seq<Faq>, category: Option<string>): (cands: seq<Faq>)
    ensures forall f :: f in cands <==> f in faqs && (Filters(category) ==> f.category == category.value)
  {
    if Filters(category) then InCategory(faqs, category.value) else faqs
  }

  /** `next((f for f in candidates if f['id'] == id), None)`: the first candidate with that id. */
  function FindById(cands: seq<Faq>, id: int): (r: Option<Faq>)
    ensures r.None? <==> forall k :: 0 <= k < |cands| ==> cands[k].id != id
    ensures r.Some? ==> exists k :: 0 <= k < |cands| && cands[k] == r.value && r.value.id == id
                                    && forall j :: 0 <= j < k ==> cands[j].id != id
    decreases |cands|
  {
    if cands == [] then None
    else if cands[0].id == id then Some(cands[0])
    else
      var r := FindById(cands[1..], id);
      assert forall k :: 1 <= k < |cands| ==> cands[k] == cands[1..][k - 1];
      r
  }

  /** The copy the ranked path makes of one entry, scores defaulting to 0.5 and reasons to "". */
  function Retrieve(cands: seq<Faq>, ref: RankedRef): (r: Option<RetrievedFaq>)
    requires ref.id.Some?
    ensures r.None? <==> forall k :: 0 <= k < |cands| ==> cands[k].id != ref.id.value
    ensures r.Some? ==> r.value.faq in cands && r.value.faq.id == ref.id.value
    ensures r.Some? ==> r.value.relevance == Some(Relevance(ref.score.GetOr(0.5), ref.reason.GetOr("")))
  {
    match FindById(cands, ref.id.value)
    case None => None
    case Some(f) => Some(RetrievedFaq(f, Some(RelevanceOf(ref))))
  }

  /**
   * The loop over the ranked entries: `None` when an entry has no id (`ranked['id']`
   * raises), otherwise the retrieved copies of the entries whose id is a candidate's.
   */
  function Resolve(cands: seq<Faq>, refs: seq<RankedRef>): (r: Option<seq<RetrievedFaq>>)
    ensures r.Some? ==> |r.value| <= |refs|
    ensures r.Some? <==> forall k :: 0 <= k < |refs| ==> refs[k].id.Some?
    decreases |refs|
  {
    if refs == [] then Some([])
    else
      var front := refs[..|refs| - 1];
      var last := refs[|refs| - 1];
      assert forall k :: 0 <= k < |front| ==> front[k] == refs[k];
      match Resolve(cands, front)
      case None => None
      case Some(found) =>
        if last.id.None? then None
        else
          match Retrieve(cands, last)
          case None => Some(found)
          case Some(f) => Some(found + [f])
  }

  function Take<T>(xs: seq<T>, n: nat): seq<T> {
    if |xs| <= n then xs else xs[..n]
  }

  /** Entries returned as they are stored, without relevance fields. */
  function AsStored(fs: seq<Faq>): (r: seq<RetrievedFaq>)
    ensures |r| == |fs|
    ensures forall k :: 0 <= k < |r| ==> r[k] == RetrievedFaq(fs[k], None)
  {
    seq(|fs|, k requires 0 <= k < |fs| => RetrievedFaq(fs[k], None))
  }

  /** What the search returns from candidates too many to return whole, given the decoded ranking. */
  function Select(cands: seq<Faq>, topK: nat, parsed: Decoded<RankingReply>): seq<RetrievedFaq> {
    match parsed
    case Ok(v) =>
      (match Resolve(cands, Take(v.rankedFaqs.GetOr([]), topK))
       case Some(rs) => rs
       case None => AsStored(Take(cands, topK)))
    case _ => AsStored(Take(cands, topK))
  }

  /** `search_relevant_faqs`, given the ranker's reply and the decoder for it. */
  function Search(faqs: seq<Faq>, category: Option<string>, topK: nat,
                  reply: CallResult, decode: string -> Decoded<RankingReply>): seq<RetrievedFaq>
  {
    var cands := Candidates(faqs, category);
    if |cands| <= topK then AsStored(cands) else Select(cands, topK, ReadReply(reply, decode))
  }

  /** The retrieval component: the FAQ list is loaded once and only read afterwards. */
  class RAGSystem {
    const faqs: seq<Faq>

    constructor(faqs: seq<Faq>)
      ensures this.faqs == faqs
    {
      this.faqs := faqs;
    }

    /** `search_relevant_faqs`: filter, short-circuit, resolve the ranked ids, or fall back. */
    method SearchRelevantFaqs(category: Option<string>, topK: nat,
                              reply: CallResult, decode: string -> Decoded<RankingReply>)
      returns (relevant: seq<RetrievedFaq>)
      ensures relevant == Search(faqs, category, topK, reply, decode)
    {
      var cands := Candidates(faqs, category);
      if |cands| <= topK {
        return AsStored(cands);
      }
      var parsed := ReadReply(reply, decode);
      assert Search(faqs, category, topK, reply, decode) == Select(cands, topK, parsed);
      if !parsed.Ok? {
        return AsStored(Take(cands, topK));
      }
      var resolved := ResolveRanked(cands, Take(parsed.value.rankedFaqs.GetOr([]), topK));
      if resolved.Some? {
        relevant := resolved.value;
      } else {
        relevant := AsStored(Take(cands, topK));
      }
    }

    /**
     * The loop over `ranked_ids[:top_k]`: each entry's id is looked up among the candidates
     * and a copy with relevance fields is appended; an entry without an id aborts (`None`).
     */
    static method ResolveRanked(cands: seq<Faq>, refs: seq<RankedRef>) returns (r: Option<seq<RetrievedFaq>>)
      ensures r == Resolve(cands, refs)
    {
      var relevant := [];
      var i := 0;
      while i < |refs|
        invariant i <= |refs|
        invariant Resolve(cands, refs[..i]) == Some(relevant)
      {
        assert refs[..i + 1][..i] == refs[..i];
        var ref := refs[i];
        if ref.id.None? {
          assert !(forall k :: 0 <= k < |refs| ==> refs[k].id.Some?);
          return None;
        }
        var found := FindById(cands, ref.id.value);
        if found.Some? {
          relevant := relevant + [RetrievedFaq(found.value, Some(RelevanceOf(ref)))];
        }
        i := i + 1;
      }
      assert refs[..i] == refs;
      return Some(relevant);
    }

    /** `search_multi_category`: the same search with no category filter. */
    method SearchMultiCategory(topK: nat, reply: CallResult, decode: string -> Decoded<RankingReply>)
      returns (relevant: seq<RetrievedFaq>)
      ensures relevant == Search(faqs, None, topK, reply, decode)
      ensures relevant == Search(faqs, Some("MULTIPLE"), topK, reply, decode)
    {
      relevant := SearchRelevantFaqs(None, topK, reply, decode);
    }
  }

  /** Every search returns at most `top_k` entries. */
  lemma SearchAtMostTopK(faqs: seq<Faq>, category: Option<string>, topK: nat,
                         reply: CallResult, decode: string -> Decoded<RankingReply>)
    ensures |Search(faqs, category, topK, reply, decode)| <= topK
  {
    var cands := Candidates(faqs, category);
    if |cands| > topK {
      SelectAtMostTopK(cands, topK, ReadReply(reply, decode));
    }
  }

  lemma SelectAtMostTopK(cands: seq<Faq>, topK: nat, parsed: Decoded<RankingReply>)
    ensures |Select(cands, topK, parsed)| <= topK
  {
    match parsed
    case Ok(v) =>
      var refs := Take(v.rankedFaqs.GetOr([]), topK);
      assert |refs| <= topK;
    case _ =>
  }

  /** Every entry returned is a candidate: when the filter applies, it is of the requested category. */
  lemma SearchReturnsCandidates(faqs: seq<Faq>, category: Option<string>, topK: nat,
                                reply: CallResult, decode: string -> Decoded<RankingReply>)
    ensures forall e :: e in Search(faqs, category, topK, reply, decode) ==> e.faq in Candidates(faqs, category) && e.faq in faqs
    ensures Filters(category) ==>
      forall e :: e in Search(faqs, category, topK, reply, decode) ==> e.faq.category == category.value
  {
    var cands := Candidates(faqs, category);
    if |cands| > topK {
      SelectReturnsCandidates(cands, topK, ReadReply(reply, decode));
    }
  }

  lemma SelectReturnsCandidates(cands: seq<Faq>, topK: nat, parsed: Decoded<RankingReply>)
    ensures forall e :: e in Select(cands, topK, parsed) ==> e.faq in cands
  {
    if parsed.Ok? {
      var refs := Take(parsed.value.rankedFaqs.GetOr([]), topK);
      if Resolve(cands, refs).Some? {
        ResolvedAreCandidates(cands, refs);
        return;
      }
    }
    var fallback := Take(cands, topK);
    assert forall k :: 0 <= k < |fallback| ==> fallback[k] in cands;
  }

  /**
   * Every entry the ranked path returns is the first candidate carrying its id, with
   * relevance fields attached.
   */
  lemma {:induction false} ResolvedAreCandidates(cands: seq<Faq>, refs: seq<RankedRef>)
    requires Resolve(cands, refs).Some?
    ensures forall e :: e in Resolve(cands, refs).value ==>
      e.faq in cands && e.relevance.Some? && FindById(cands, e.faq.id) == Some(e.faq)
    decreases |refs|
  {
    if refs != [] {
      ResolvedAreCandidates(cands, refs[..|refs| - 1]);
    }
  }

  /** Some candidate has the id `id`. */
  predicate NamesCandidate(cands: seq<Faq>, id: int)
  {
    exists k :: 0 <= k < |cands| && cands[k].id == id
  }

  /** The ranked entries whose id names a candidate, in ranking order, repeats kept. */
  function KnownRefs(cands: seq<Faq>, refs: seq<RankedRef>): (known: seq<RankedRef>)
    requires forall k :: 0 <= k < |refs| ==> refs[k].id.Some?
    ensures forall j :: 0 <= j < |known| ==> known[j] in refs && known[j].id.Some?
    ensures forall j :: 0 <= j < |known| ==> NamesCandidate(cands, known[j].id.value)
    decreases |refs|
  {
    if refs == [] then []
    else
      var front := refs[..|refs| - 1];
      var last := refs[|refs| - 1];
      assert forall k :: 0 <= k < |front| ==> front[k] == refs[k];
      var rest := KnownRefs(cands, front);
      var tail := if NamesCandidate(cands, last.id.value) then [last] else [];
      KnownRefsAppend(cands, refs, front, rest, tail);
      rest + tail
  }

  /** Appending a known entry of `refs` to the known entries of a prefix keeps them known entries of `refs`. */
  lemma KnownRefsAppend(cands: seq<Faq>, refs: seq<RankedRef>, front: seq<RankedRef>, rest: seq<RankedRef>, tail: seq<RankedRef>)
    requires |front| <= |refs| && front == refs[..|front|]
    requires forall j :: 0 <= j < |rest| ==> rest[j] in front && rest[j].id.Some?
    requires forall j :: 0 <= j < |rest| ==> NamesCandidate(cands, rest[j].id.value)
    requires forall j :: 0 <= j < |tail| ==> tail[j] in refs && tail[j].id.Some?
    requires forall j :: 0 <= j < |tail| ==> NamesCandidate(cands, tail[j].id.value)
    ensures forall j :: 0 <= j < |rest + tail| ==> (rest + tail)[j] in refs && (rest + tail)[j].id.Some?
    ensures forall j :: 0 <= j < |rest + tail| ==> NamesCandidate(cands, (rest + tail)[j].id.value)
  {
    forall j | 0 <= j < |rest + tail|
      ensures (rest + tail)[j] in refs && (rest + tail)[j].id.Some?
      ensures NamesCandidate(cands, (rest + tail)[j].id.value)
    {
      if j < |rest| {
        assert (rest + tail)[j] == rest[j];
        var i :| 0 <= i < |front| && front[i] == rest[j];
        assert refs[i] == front[i];
      } else {
        assert (rest + tail)[j] == tail[j - |rest|];
      }
    }
  }

  /**
   * When every ranked entry has an id, the result follows the ranking: its j-th entry is
   * the first candidate with the id of the j-th ranked entry that names a candidate, and
   * carries that entry's score (0.5 when absent) and reason ("" when absent). Unknown ids
   * are dropped and repeats are kept.
   */
  lemma {:induction false} ResolvedFollowsRanking(cands: seq<Faq>, refs: seq<RankedRef>)
    requires forall k :: 0 <= k < |refs| ==> refs[k].id.Some?
    ensures var r := Resolve(cands, refs).value; var known := KnownRefs(cands, refs);
            && |r| == |known|
            && forall j :: 0 <= j < |r| ==>
                 && FindById(cands, known[j].id.value) == Some(r[j].faq)
                 && r[j].relevance == Some(RelevanceOf(known[j]))
    decreases |refs|
  {
    if refs != [] {
      var front := refs[..|refs| - 1];
      var last := refs[|refs| - 1];
      assert forall k :: 0 <= k < |front| ==> front[k] == refs[k];
      ResolvedFollowsRanking(cands, front);
      var found := Resolve(cands, front).value;
      var kf := KnownRefs(cands, front);
      match FindById(cands, last.id.value)
      case None =>
        assert Resolve(cands, refs).value == found;
        assert KnownRefs(cands, refs) == kf;
      case Some(f) =>
        var e := RetrievedFaq(f, Some(RelevanceOf(last)));
        assert Resolve(cands, refs).value == found + [e];
        assert KnownRefs(cands, refs) == kf + [last];
    }
  }

  /**
   * A ranked entry without an id among the first `top_k` sends the search to the fallback:
   * the first `top_k` candidates, in storage order, without relevance fields.
   */
  lemma MissingIdFallsBack(cands: seq<Faq>, topK: nat, refs: seq<RankedRef>, k: nat)
    requires |cands| > topK
    requires k < topK && k < |refs| && refs[k].id.None?
    ensures Select(cands, topK, Ok(RankingReply(Some(refs)))) == AsStored(cands[..topK])
  {
    assert Take(refs, topK)[k] == refs[k];
  }

  /** A failed call or a reply that does not decode gives the fallback too. */
  lemma FailureFallsBack(cands: seq<Faq>, topK: nat, parsed: Decoded<RankingReply>)
    requires |cands| > topK && !parsed.Ok?
    ensures Select(cands, topK, parsed) == AsStored(cands[..topK])
  {
  }

  /** A decoded reply without a `ranked_faqs` key gives an empty result, not the fallback. */
  lemma NoRankingGivesNothing(cands: seq<Faq>, topK: nat)
    ensures Select(cands, topK, Ok(RankingReply(None))) == []
  {
  }
}
