/**
 * Email preprocessing: the deterministic first stage. It joins subject and body, collapses
 * whitespace, pulls out order numbers with two regular expressions and grades urgency from
 * keywords, capitals and exclamation marks. The regular expressions are written out as
 * scanners with the semantics of `re.findall` under `re.IGNORECASE`.
 */
module EmailProcessor {
  import opened Wrappers
  import opened Text

  datatype Urgency = Low | Medium | High

  predicate NoDuplicates<T(==)>(xs: seq<T>) {
    forall i, j :: 0 <= i < j < |xs| ==> xs[i] != xs[j]
  }

  /** `list(set(xs))`: every element once. Python leaves the order open; this keeps first occurrences. */
  function Dedup(xs: seq<string>): (r: seq<string>)
    ensures NoDuplicates(r)
    ensures forall x :: x in r <==> x in xs
    decreases |xs|
  {
    if xs == [] then []
    else
      var d := Dedup(xs[..|xs| - 1]);
      var x := xs[|xs| - 1];
      assert forall y :: y in xs <==> y in xs[..|xs| - 1] || y == x by {
        assert xs == xs[..|xs| - 1] + [x];
      }
      if x in d then d else d + [x]
  }

  // ---------------------------------------------------------------------------
  // Order numbers
  // ---------------------------------------------------------------------------

  /**
   * The three patterns, in the order they are tried: `#(\d{5,})`, `order[:\s]+#?(\d{5,})` and
   * `Order[:\s]+#?(\d{5,})`. Under `re.IGNORECASE` the last two match the same text.
   */
  datatype Pattern = HashNumber | OrderKeyword(spelling: string)

  const Patterns: seq<Pattern> := [HashNumber, OrderKeyword("order"), OrderKeyword("Order")]

  const MinDigits: nat := 5

  /** One character of the class `[:\s]`. */
  predicate IsSeparator(c: char) { c == ':' || IsSpace(c) }

  /** The length of the run of digits that starts at offset `i`. */
  function DigitRun(s: string, i: nat): (n: nat)
    requires i <= |s|
    ensures i + n <= |s|
    ensures forall k :: i <= k < i + n ==> IsDigit(s[k])
    ensures i + n == |s| || !IsDigit(s[i + n])
    decreases |s| - i
  {
    if i < |s| && IsDigit(s[i]) then 1 + DigitRun(s, i + 1) else 0
  }

  /** The length of the run of `[:\s]` characters that starts at offset `i`. */
  function SeparatorRun(s: string, i: nat): (n: nat)
    requires i <= |s|
    ensures i + n <= |s|
    ensures forall k :: i <= k < i + n ==> IsSeparator(s[k])
    ensures i + n == |s| || !IsSeparator(s[i + n])
    decreases |s| - i
  {
    if i < |s| && IsSeparator(s[i]) then 1 + SeparatorRun(s, i + 1) else 0
  }

  /** `c` is a whole run of at least five digits of `s`, starting at offset `d`. */
  predicate NumberAt(s: string, c: string, d: int) {
    && 0 <= d && d + |c| <= |s| && s[d..d + |c|] == c
    && |c| >= MinDigits
    && (forall k :: 0 <= k < |c| ==> IsDigit(c[k]))
    && (d + |c| == |s| || !IsDigit(s[d + |c|]))
  }

  /** `\d{5,}` at offset `d`, taken greedily: the capture and the offset after it. */
  function DigitsFrom(s: string, d: nat): (m: Option<(string, nat)>)
    requires d <= |s|
    ensures m.Some? ==> m.value.1 == d + |m.value.0| && NumberAt(s, m.value.0, d)
  {
    var n := DigitRun(s, d);
    if n >= MinDigits then Some((s[d..d + n], d + n)) else None
  }

  /** One attempt of pattern `p` at offset `i`: the captured number and the offset where the match ends. */
  function MatchAt(p: Pattern, s: string, i: nat): (m: Option<(string, nat)>)
    requires i <= |s|
    ensures m.Some? ==> i < m.value.1 <= |s|
  {
    match p
    case HashNumber =>
      if i < |s| && s[i] == '#' then DigitsFrom(s, i + 1) else None
    case OrderKeyword(w) =>
      if |w| > 0 && i + |w| <= |s| && Lower(s[i..i + |w|]) == Lower(w) then
        var j := i + |w|;
        var sep := SeparatorRun(s, j);
        if sep == 0 then None
        else
          var k := j + sep;
          DigitsFrom(s, if k < |s| && s[k] == '#' then k + 1 else k)
      else None
  }

  /** `re.findall(p, s)` from offset `i`: try at each offset, and after a match resume where it ended. */
  function FindAllFrom(p: Pattern, s: string, i: nat): seq<string>
    requires i <= |s|
    decreases |s| - i
  {
    if i == |s| then []
    else
      match MatchAt(p, s, i)
      case Some((c, e)) => [c] + FindAllFrom(p, s, e)
      case None => FindAllFrom(p, s, i + 1)
  }

  /** The matches of the first `ps` patterns, concatenated as the loop over patterns extends its list. */
  function MatchesOf(ps: seq<Pattern>, s: string): seq<string>
    decreases |ps|
  {
    if ps == [] then [] else MatchesOf(ps[..|ps| - 1], s) + FindAllFrom(ps[|ps| - 1], s, 0)
  }

  /** What `extract_order_number` returns. */
  function OrderNumbers(text: string): seq<string> {
    Dedup(MatchesOf(Patterns, text))
  }

  /**
   * The reference definition of an order number in `s`: a whole run of at least five digits
   * that follows a `#`, or follows "order" (in any case) and one or more `:`/whitespace characters.
   */
  ghost predicate IsOrderNumber(s: string, c: string) {
    exists d :: NumberAt(s, c, d) && d > 0 && (s[d - 1] == '#' || OrderLeadIn(s, d))
  }

  /** "order", in any case, at some offset, followed by separators only up to offset `d`. */
  ghost predicate OrderLeadIn(s: string, d: int) {
    exists i :: OrderWordAt(s, i, d)
  }

  /** "order", in any case, at offset `i`, then one or more separators up to offset `d`. */
  predicate OrderWordAt(s: string, i: int, d: int) {
    0 <= i && i + 5 < d <= |s| && Lower(s[i..i + 5]) == "order" && AllSeparators(s, i + 5, d)
  }

  predicate AllSeparators(s: string, from: int, to: int)
    requires 0 <= from <= to <= |s|
  {
    forall k :: from <= k < to ==> IsSeparator(s[k])
  }

  /**
   * `extract_order_number`: run the three patterns in turn, collect their captures, then
   * drop repeats. The result holds exactly the order numbers of the text, each once.
   */
  method ExtractOrderNumbers(text: string) returns (numbers: seq<string>)
    ensures numbers == OrderNumbers(text)
    ensures NoDuplicates(numbers)
    ensures forall c :: c in numbers <==> IsOrderNumber(text, c)
  {
    var found: seq<string> := [];
    for k := 0 to |Patterns|
      invariant found == MatchesOf(Patterns[..k], text)
    {
      found := found + FindAllFrom(Patterns[k], text, 0);
      assert Patterns[..k + 1][..k] == Patterns[..k];
    }
    assert Patterns[..|Patterns|] == Patterns;
    numbers := Dedup(found);
    OrderNumbersExactly(text);
  }

  /** Both spellings of the keyword pattern are the same pattern once case is ignored. */
  lemma KeywordSpellings()
    ensures Lower("order") == "order" && Lower("Order") == "order"
  {
    assert Lower("Order")[0] == LowerChar('O') == 'o';
  }

  /** What a match found by one of the patterns captures. */
  lemma MatchIsOrderNumber(p: Pattern, s: string, i: nat)
    requires p in Patterns && i <= |s| && MatchAt(p, s, i).Some?
    ensures IsOrderNumber(s, MatchAt(p, s, i).value.0)
  {
    if p.HashNumber? {
      HashMatchIsOrderNumber(s, i);
    } else {
      KeywordSpellings();
      KeywordMatchIsOrderNumber(p.spelling, s, i);
    }
  }

  lemma HashMatchIsOrderNumber(s: string, i: nat)
    requires i <= |s| && MatchAt(HashNumber, s, i).Some?
    ensures IsOrderNumber(s, MatchAt(HashNumber, s, i).value.0)
  {
    var c := MatchAt(HashNumber, s, i).value.0;
    assert NumberAt(s, c, i + 1) && s[i] == '#';
  }

  lemma KeywordMatchIsOrderNumber(w: string, s: string, i: nat)
    requires |w| == 5 && Lower(w) == "order"
    requires i <= |s| && MatchAt(OrderKeyword(w), s, i).Some?
    ensures IsOrderNumber(s, MatchAt(OrderKeyword(w), s, i).value.0)
  {
    var c := MatchAt(OrderKeyword(w), s, i).value.0;
    var j := i + 5;
    var k := j + SeparatorRun(s, j);
    if k < |s| && s[k] == '#' {
      assert NumberAt(s, c, k + 1);
    } else {
      assert NumberAt(s, c, k);
      assert AllSeparators(s, j, k);
      assert OrderWordAt(s, i, k);
    }
  }

  /** Every capture of `re.findall` is an order number. */
  lemma {:induction false} FindAllSound(p: Pattern, s: string, i: nat, c: string)
    requires p in Patterns && i <= |s| && c in FindAllFrom(p, s, i)
    ensures IsOrderNumber(s, c)
    decreases |s| - i
  {
    if i < |s| {
      match MatchAt(p, s, i)
      case Some((c', e)) =>
        if c == c' { MatchIsOrderNumber(p, s, i); } else { FindAllSound(p, s, e, c); }
      case None =>
        FindAllSound(p, s, i + 1, c);
    }
  }

  /** A match never starts inside another match, so resuming after a match skips no capture. */
  lemma NoMatchInside(p: Pattern, s: string, i: nat, k: nat)
    requires p in Patterns && i < k <= |s| && MatchAt(p, s, i).Some? && k < MatchAt(p, s, i).value.1
    ensures MatchAt(p, s, k).None?
  {
    if p.HashNumber? {
      HashNoMatchInside(s, i, k);
    } else {
      KeywordSpellings();
      NotAnOInside(p.spelling, s, i, k);
      NoKeywordAt(p.spelling, s, k);
    }
  }

  lemma HashNoMatchInside(s: string, i: nat, k: nat)
    requires i < k <= |s| && MatchAt(HashNumber, s, i).Some? && k < MatchAt(HashNumber, s, i).value.1
    ensures MatchAt(HashNumber, s, k).None?
  {
    var c := MatchAt(HashNumber, s, i).value.0;
    assert s[k] == c[k - (i + 1)] by { assert s[i + 1..i + 1 + |c|][k - (i + 1)] == s[k]; }
    DigitIsNotSeparator(s[k]);
  }

  /** Past its first character, a keyword match holds no character that lower-cases to 'o'. */
  lemma NotAnOInside(w: string, s: string, i: nat, k: nat)
    requires |w| == 5 && Lower(w) == "order"
    requires i < k <= |s| && MatchAt(OrderKeyword(w), s, i).Some?
    requires k < MatchAt(OrderKeyword(w), s, i).value.1
    ensures LowerChar(s[k]) != 'o'
  {
    if k < i + 5 {
      assert Lower(s[i..i + 5])[k - i] == LowerChar(s[k]);
    } else {
      assert IsSeparator(s[k]) || s[k] == '#' || IsDigit(s[k]);
    }
  }

  lemma NoKeywordAt(w: string, s: string, k: nat)
    requires |w| == 5 && Lower(w) == "order"
    requires k < |s| && LowerChar(s[k]) != 'o'
    ensures MatchAt(OrderKeyword(w), s, k).None?
  {
    if k + 5 <= |s| {
      assert Lower(s[k..k + 5])[0] == LowerChar(s[k]);
    }
  }

  /** Every match of `p` at or after offset `i` is among the captures of `re.findall` from `i`. */
  lemma {:induction false} FindAllComplete(p: Pattern, s: string, i: nat, m: nat)
    requires p in Patterns && i <= m < |s| && MatchAt(p, s, m).Some?
    ensures MatchAt(p, s, m).value.0 in FindAllFrom(p, s, i)
    decreases |s| - i
  {
    if i < m {
      match MatchAt(p, s, i)
      case Some((c, e)) =>
        if m < e { NoMatchInside(p, s, i, m); }
        if e < |s| && e <= m { FindAllComplete(p, s, e, m); }
      case None =>
        FindAllComplete(p, s, i + 1, m);
    }
  }

  lemma {:induction false} DigitRunExact(s: string, d: nat, n: nat)
    requires d + n <= |s|
    requires forall k :: d <= k < d + n ==> IsDigit(s[k])
    requires d + n == |s| || !IsDigit(s[d + n])
    ensures DigitRun(s, d) == n
    decreases n
  {
    if n > 0 { DigitRunExact(s, d + 1, n - 1); }
  }

  lemma {:induction false} SeparatorRunExact(s: string, d: nat, n: nat)
    requires d + n <= |s|
    requires forall k :: d <= k < d + n ==> IsSeparator(s[k])
    requires d + n == |s| || !IsSeparator(s[d + n])
    ensures SeparatorRun(s, d) == n
    decreases n
  {
    if n > 0 { SeparatorRunExact(s, d + 1, n - 1); }
  }

  lemma DigitsFromNumber(s: string, c: string, d: nat)
    requires NumberAt(s, c, d)
    ensures DigitsFrom(s, d) == Some((c, d + |c|))
  {
    assert forall k :: d <= k < d + |c| ==> IsDigit(s[k]) by {
      forall k | d <= k < d + |c| ensures IsDigit(s[k]) { assert s[d..d + |c|][k - d] == s[k]; }
    }
    DigitRunExact(s, d, |c|);
  }

  lemma KeywordMatch(w: string, s: string, c: string, i: nat, d: nat)
    requires |w| == 5 && Lower(w) == "order"
    requires NumberAt(s, c, d) && OrderWordAt(s, i, d) && s[d - 1] != '#'
    ensures MatchAt(OrderKeyword(w), s, i) == Some((c, d + |c|))
  {
    assert s[d] == c[0] by { assert s[d..d + |c|][0] == s[d]; }
    DigitIsNotSeparator(s[d]);
    SeparatorRunExact(s, i + 5, d - (i + 5));
    DigitsFromNumber(s, c, d);
    assert MatchAt(OrderKeyword(w), s, i) == DigitsFrom(s, d);
  }

  lemma DigitIsNotSeparator(ch: char)
    requires IsDigit(ch)
    ensures !IsSeparator(ch) && ch != '#'
  {
  }

  /** Every order number is captured by the first or the second pattern at some offset. */
  lemma OrderNumberIsMatched(s: string, c: string) returns (p: Pattern, i: nat)
    requires IsOrderNumber(s, c)
    ensures p in Patterns && i < |s| && MatchAt(p, s, i).Some? && MatchAt(p, s, i).value.0 == c
  {
    var d :| NumberAt(s, c, d) && d > 0 && (s[d - 1] == '#' || OrderLeadIn(s, d));
    if s[d - 1] == '#' {
      DigitsFromNumber(s, c, d);
      p, i := HashNumber, d - 1;
    } else {
      var j :| OrderWordAt(s, j, d);
      KeywordSpellings();
      KeywordMatch("order", s, c, j, d);
      p, i := OrderKeyword("order"), j;
    }
  }

  /** Every capture of a list of patterns is a capture of one of the patterns. */
  lemma {:induction false} MatchOfSomePattern(ps: seq<Pattern>, s: string, c: string) returns (k: nat)
    requires c in MatchesOf(ps, s)
    ensures k < |ps| && c in FindAllFrom(ps[k], s, 0)
    decreases |ps|
  {
    var front := ps[..|ps| - 1];
    if c in FindAllFrom(ps[|ps| - 1], s, 0) {
      k := |ps| - 1;
    } else {
      k := MatchOfSomePattern(front, s, c);
      assert front[k] == ps[k];
    }
  }

  /** Every capture of one of the patterns is kept in the list's captures. */
  lemma {:induction false} PatternMatchIsKept(ps: seq<Pattern>, s: string, k: nat, c: string)
    requires k < |ps| && c in FindAllFrom(ps[k], s, 0)
    ensures c in MatchesOf(ps, s)
    decreases |ps|
  {
    var front := ps[..|ps| - 1];
    if k < |front| {
      assert front[k] == ps[k];
      PatternMatchIsKept(front, s, k, c);
    }
  }

  /** `extract_order_number` returns exactly the order numbers of the text, without repeats. */
  lemma OrderNumbersExactly(text: string)
    ensures NoDuplicates(OrderNumbers(text))
    ensures forall c :: c in OrderNumbers(text) <==> IsOrderNumber(text, c)
  {
    forall c | c in OrderNumbers(text) ensures IsOrderNumber(text, c) {
      var k := MatchOfSomePattern(Patterns, text, c);
      FindAllSound(Patterns[k], text, 0, c);
    }
    forall c | IsOrderNumber(text, c) ensures c in OrderNumbers(text) {
      var p, i := OrderNumberIsMatched(text, c);
      FindAllComplete(p, text, 0, i);
      var k :| 0 <= k < |Patterns| && Patterns[k] == p;
      PatternMatchIsKept(Patterns, text, k, c);
    }
  }

  /**
   * A text whose only digits are one run of at least five at its end, right after a `#` or
   * after "order" and separators, yields that run and nothing else.
   */
  lemma SingleNumber(s: string, d: nat)
    requires 0 < d && d + MinDigits <= |s|
    requires forall k :: d <= k < |s| ==> IsDigit(s[k])
    requires forall k :: 0 <= k < d ==> !IsDigit(s[k])
    requires s[d - 1] == '#' || OrderLeadIn(s, d)
    ensures OrderNumbers(s) == [s[d..]]
  {
    OrderNumbersExactly(s);
    assert NumberAt(s, s[d..], d);
    forall c | IsOrderNumber(s, c) ensures c == s[d..] {
      var e :| NumberAt(s, c, e) && e > 0 && (s[e - 1] == '#' || OrderLeadIn(s, e));
      assert s[e] == c[0] && IsDigit(c[0]) by { assert s[e..e + |c|][0] == s[e]; }
      NotADigitBefore(s, e);
      assert e == d;
    }
    OnlyElement(OrderNumbers(s), s[d..]);
  }

  /** A list without repeats whose only member is `x` is `[x]`. */
  lemma OnlyElement(xs: seq<string>, x: string)
    ensures NoDuplicates(xs) && (forall c :: c in xs <==> c == x) ==> xs == [x]
  {
    if |xs| >= 2 {
      assert xs[0] in xs && xs[1] in xs;
    } else if |xs| == 1 {
      assert xs == [xs[0]] && xs[0] in xs;
    } else {
      assert x !in xs;
    }
  }

  /** What precedes an order number is a `#` or a separator, so never a digit. */
  lemma NotADigitBefore(s: string, e: nat)
    requires 0 < e <= |s| && (s[e - 1] == '#' || OrderLeadIn(s, e))
    ensures !IsDigit(s[e - 1])
  {
    if s[e - 1] != '#' {
      var i :| OrderWordAt(s, i, e);
      assert IsSeparator(s[e - 1]);
    }
  }

  /** "#45823" yields exactly `["45823"]`. */
  lemma HashExample()
    ensures OrderNumbers("#45823") == ["45823"]
  {
    SingleNumber("#45823", 1);
  }

  /** "order: 45823" yields exactly `["45823"]`. */
  lemma ColonExample()
    ensures OrderNumbers("order: 45823") == ["45823"]
  {
    var s := "order: 45823";
    LowerUnchanged(s[..5]);
    assert OrderWordAt(s, 0, 7);
    SingleNumber(s, 7);
  }

  /** "ORDER #45823" yields exactly `["45823"]`. */
  lemma UpperCaseExample()
    ensures OrderNumbers("ORDER #45823") == ["45823"]
  {
    SingleNumber("ORDER #45823", 7);
  }

  /** A `#` with only four digits after it yields nothing. */
  lemma ShortNumberExample()
    ensures OrderNumbers("#1234") == []
  {
    var s := "#1234";
    OrderNumbersExactly(s);
    forall c ensures !IsOrderNumber(s, c) {
      assert forall d :: !(NumberAt(s, c, d) && d > 0);
    }
    NoMember(OrderNumbers(s));
  }

  /** A list with no member is empty. */
  lemma NoMember(xs: seq<string>)
    ensures (forall c :: c !in xs) ==> xs == []
  {
    if xs != [] {
      assert xs[0] in xs;
    }
  }

  lemma LowerUnchanged(w: string)
    requires forall k :: 0 <= k < |w| ==> !IsUpper(w[k])
    ensures Lower(w) == w
  {
  }

  // ---------------------------------------------------------------------------
  // Urgency
  // ---------------------------------------------------------------------------

  const UrgentKeywords: seq<string> := [
    "urgent", "asap", "immediately", "emergency",
    "angry", "unacceptable", "furious", "disappointed",
    "third time", "still waiting", "never received"
  ]

  /** How many keywords of `ks` occur in `t`: the generator sum `sum(1 for k in ks if k in t)`. */
  function CountPresent(ks: seq<string>, t: string): nat
    decreases |ks|
  {
    if ks == [] then 0
    else CountPresent(ks[..|ks| - 1], t) + (if Contains(t, ks[|ks| - 1]) then 1 else 0)
  }

  function KeywordCount(text: string): nat {
    CountPresent(UrgentKeywords, Lower(text))
  }

  function UpperCount(s: string): nat
    decreases |s|
  {
    if s == [] then 0 else UpperCount(s[..|s| - 1]) + (if IsUpper(s[|s| - 1]) then 1 else 0)
  }

  /** `caps_ratio > 0.3`, in integers: more than three in ten characters are capitals. */
  predicate MostlyCapitals(text: string) {
    10 * UpperCount(text) > 3 * |text|
  }

  /** `detect_urgency`. */
  function DetectUrgency(text: string): Urgency {
    var count := KeywordCount(text);
    if count >= 2 || MostlyCapitals(text) || Contains(text, "!!!") then High
    else if count == 1 then Medium
    else Low
  }

  /** The keywords that occur in the text, ignoring case. */
  ghost function MatchedKeywords(text: string): set<string> {
    set k | k in UrgentKeywords && Contains(Lower(text), k)
  }

  /** The ratio of capitals to all characters, as the source computes it (0 for empty text). */
  function CapsRatio(text: string): real {
    if |text| > 0 then (UpperCount(text) as real) / (|text| as real) else 0.0
  }

  lemma {:induction false} CountPresentDistinct(ks: seq<string>, t: string)
    requires NoDuplicates(ks)
    ensures CountPresent(ks, t) == |set k | k in ks && Contains(t, k)|
    decreases |ks|
  {
    if ks != [] {
      var front, last := ks[..|ks| - 1], ks[|ks| - 1];
      CountPresentDistinct(front, t);
      var before := set k | k in front && Contains(t, k);
      var after := set k | k in ks && Contains(t, k);
      assert ks == front + [last];
      assert last !in front;
      if Contains(t, last) {
        assert after == before + {last};
      } else {
        assert after == before;
      }
    }
  }

  lemma CapsRatioInIntegers(text: string)
    ensures CapsRatio(text) > 0.3 <==> MostlyCapitals(text)
  {
    if |text| > 0 {
      RatioInIntegers(UpperCount(text), |text|);
    }
  }

  lemma RatioInIntegers(u: nat, n: nat)
    requires n > 0
    ensures (u as real) / (n as real) > 0.3 <==> 10 * u > 3 * n
  {
    var x, y := u as real, n as real;
    var r := x / y;
    assert r * y == x;
    if r > 0.3 {
      PositiveProduct(r - 0.3, y);
      assert x - 0.3 * y > 0.0;
    } else {
      PositiveProduct(0.3 - r, y);
      assert 0.3 * y - x >= 0.0;
    }
  }

  lemma PositiveProduct(x: real, y: real)
    requires x >= 0.0 && y > 0.0
    ensures x * y >= 0.0 && (x > 0.0 ==> x * y > 0.0)
  {
  }

  /**
   * The urgency table: HIGH exactly when two or more distinct keywords occur, or capitals
   * are more than 30% of all characters, or "!!!" occurs; otherwise MEDIUM exactly when one
   * keyword occurs, and LOW when none does.
   */
  lemma UrgencyTable(text: string)
    ensures var high := |MatchedKeywords(text)| >= 2 || CapsRatio(text) > 0.3 || Contains(text, "!!!");
            && (DetectUrgency(text) == High <==> high)
            && (DetectUrgency(text) == Medium <==> !high && |MatchedKeywords(text)| == 1)
            && (DetectUrgency(text) == Low <==> !high && |MatchedKeywords(text)| == 0)
  {
    CountPresentDistinct(UrgentKeywords, Lower(text));
    CapsRatioInIntegers(text);
  }

  // ---------------------------------------------------------------------------
  // Whitespace and the preprocessed record
  // ---------------------------------------------------------------------------

  /** `re.sub(r'\s+', ' ', s)`: every run of whitespace becomes one space. */
  function Collapse(s: string): (r: string)
    ensures |s| > 0 ==> |r| > 0 && (IsSpace(r[0]) <==> IsSpace(s[0]))
    decreases |s|
  {
    if s == [] then []
    else if IsSpace(s[0]) then [' '] + Collapse(TrimStart(s))
    else [s[0]] + Collapse(s[1..])
  }

  /** The cleaned text: whitespace runs collapsed, then stripped. */
  function Clean(s: string): string {
    Trim(Collapse(s))
  }

  /** Only plain spaces, never two together. */
  predicate SingleSpaced(s: string) {
    && (forall k :: 0 <= k < |s| && IsSpace(s[k]) ==> s[k] == ' ')
    && (forall k :: 0 <= k < |s| - 1 ==> !(s[k] == ' ' && s[k + 1] == ' '))
  }

  /** Text in the shape `Clean` produces: single-spaced, with no space at either end. */
  predicate WellSpaced(s: string) {
    SingleSpaced(s) && (|s| > 0 ==> s[0] != ' ' && s[|s| - 1] != ' ')
  }

  lemma SingleSpacedCons(c: char, s: string)
    requires SingleSpaced(s) && (IsSpace(c) ==> c == ' ')
    requires c == ' ' && |s| > 0 ==> s[0] != ' '
    ensures SingleSpaced([c] + s)
  {
    var r := [c] + s;
    forall k | 1 <= k < |r| ensures r[k] == s[k - 1] { }
  }

  lemma SingleSpacedTail(s: string)
    requires SingleSpaced(s) && |s| > 0
    ensures SingleSpaced(s[1..])
  {
    var t := s[1..];
    forall k | 0 <= k < |t| ensures t[k] == s[k + 1] { }
  }

  /** Collapsing leaves only single plain spaces and keeps every other character, in order. */
  lemma {:induction false} CollapseShape(s: string)
    ensures SingleSpaced(Collapse(s))
    ensures NonSpace(Collapse(s)) == NonSpace(s)
    decreases |s|
  {
    if s != [] {
      if IsSpace(s[0]) {
        var rest := TrimStart(s);
        CollapseShape(rest);
        SingleSpacedCons(' ', Collapse(rest));
        NonSpaceOfTrimStart(s);
      } else {
        CollapseShape(s[1..]);
        SingleSpacedCons(s[0], Collapse(s[1..]));
      }
    }
  }

  /** Cleaning yields well-spaced text and keeps every non-whitespace character, in order. */
  lemma CleanShape(s: string)
    ensures WellSpaced(Clean(s))
    ensures NonSpace(Clean(s)) == NonSpace(s)
  {
    var c := Collapse(s);
    CollapseShape(s);
    var a, b := TrimIsSlice(c);
    SingleSpacedSlice(c, a, b);
    NonSpaceOfTrim(c);
  }

  lemma SingleSpacedSlice(s: string, a: nat, b: nat)
    requires SingleSpaced(s) && a <= b <= |s|
    ensures SingleSpaced(s[a..b])
  {
    var r := s[a..b];
    forall k | 0 <= k < |r| ensures r[k] == s[a + k] { }
  }

  lemma TrimStartOne(s: string)
    requires |s| > 0 && IsSpace(s[0]) && (|s| > 1 ==> !IsSpace(s[1]))
    ensures TrimStart(s) == s[1..]
  {
    if |s| > 1 { assert TrimStart(s[1..]) == s[1..]; } else { assert TrimStart(s[1..]) == []; }
  }

  /** Collapsing changes nothing in single-spaced text. */
  lemma {:induction false} CollapseFixed(s: string)
    requires SingleSpaced(s)
    ensures Collapse(s) == s
    decreases |s|
  {
    if s != [] {
      SingleSpacedTail(s);
      CollapseFixed(s[1..]);
      if IsSpace(s[0]) {
        assert s[0] == ' ';
        assert |s| > 1 ==> !IsSpace(s[1]);
        TrimStartOne(s);
        assert Collapse(s) == [' '] + Collapse(s[1..]);
      } else {
        assert Collapse(s) == [s[0]] + Collapse(s[1..]);
      }
      assert s == [s[0]] + s[1..];
    }
  }

  /** Cleaning is idempotent: cleaned text is its own cleaning. */
  lemma CleanIdempotent(s: string)
    ensures Clean(Clean(s)) == Clean(s)
  {
    CleanShape(s);
    WellSpacedIsClean(Clean(s));
  }

  /** Well-spaced text is its own cleaning. */
  lemma WellSpacedIsClean(r: string)
    requires WellSpaced(r)
    ensures Clean(r) == r
  {
    CollapseFixed(r);
    TrimUnchanged(r);
  }

  /** A word: a non-empty stretch of text without whitespace. */
  predicate IsWord(w: string) {
    w != [] && forall j :: 0 <= j < |w| ==> !IsSpace(w[j])
  }

  /** The run of non-whitespace characters that `s` starts with, ended by whitespace or the end of `s`. */
  function LeadingWord(s: string): (w: string)
    ensures |w| <= |s| && w == s[..|w|]
    ensures forall j :: 0 <= j < |w| ==> !IsSpace(w[j])
    ensures |w| == |s| || IsSpace(s[|w|])
    decreases |s|
  {
    if s == [] || IsSpace(s[0]) then [] else [s[0]] + LeadingWord(s[1..])
  }

  lemma LeadingWordIsWord(t: string)
    requires t != [] && !IsSpace(t[0])
    ensures IsWord(LeadingWord(t))
  {
  }

  lemma AllWordsCons(w: string, ws: seq<string>)
    requires IsWord(w) && forall k :: 0 <= k < |ws| ==> IsWord(ws[k])
    ensures forall k :: 0 <= k < |[w] + ws| ==> IsWord(([w] + ws)[k])
  {
  }

  /** The words of `s`: its maximal runs of non-whitespace characters, in order. */
  function Words(s: string): (ws: seq<string>)
    ensures forall k :: 0 <= k < |ws| ==> IsWord(ws[k])
    decreases |s|
  {
    var t := TrimStart(s);
    if t == [] then []
    else
      var w := LeadingWord(t);
      LeadingWordIsWord(t);
      var rest := Words(t[|w|..]);
      AllWordsCons(w, rest);
      [w] + rest
  }

  /**
   * `re.sub(r'\s+', ' ', s)` exactly: the words of `s` joined by single spaces, with one
   * space in front when `s` starts with whitespace and one behind when it ends with
   * whitespace after a word.
   */
  lemma CollapseWords(s: string)
    ensures s != [] && IsSpace(s[0]) ==>
      Collapse(s) == " " + Join(Words(s), ' ') + (if Words(s) != [] && EndsInSpace(s) then " " else "")
    ensures !(s != [] && IsSpace(s[0])) ==>
      Collapse(s) == Join(Words(s), ' ') + (if Words(s) != [] && EndsInSpace(s) then " " else "")
  {
    if s != [] && IsSpace(s[0]) {
      CollapseWordsSpaceFirst(s);
    } else {
      CollapseWordsFrom(s);
    }
  }

  lemma CollapseWordsSpaceFirst(s: string)
    requires s != [] && IsSpace(s[0])
    ensures Collapse(s) == " " + Join(Words(s), ' ') + (if Words(s) != [] && EndsInSpace(s) then " " else "")
  {
    var t := TrimStart(s);
    WordsOfTrimStart(s);
    CollapseWordsFrom(t);
    CollapseSpaceInitial(s);
    EndOfTrimStart(s);
    if t == [] {
      assert Words(t) == [];
    }
    GlueSpace(Collapse(s), Collapse(t), Words(s), EndsInSpace(t), EndsInSpace(s));
  }

  lemma GlueSpace(cs: string, ct: string, ws: seq<string>, endT: bool, endS: bool)
    requires cs == " " + ct
    requires ct == Join(ws, ' ') + (if ws != [] && endT then " " else "")
    requires ws != [] ==> (endT <==> endS)
    ensures cs == " " + Join(ws, ' ') + (if ws != [] && endS then " " else "")
  {
  }

  lemma EndOfTrimStart(s: string)
    ensures TrimStart(s) != [] ==> (EndsInSpace(TrimStart(s)) <==> EndsInSpace(s))
  {
    var t := TrimStart(s);
    if t != [] {
      assert t[|t| - 1] == s[|s| - 1];
    }
  }

  /** Cleaning is exactly "the words of the text, joined by single spaces". */
  lemma CleanIsJoinedWords(s: string)
    ensures Clean(s) == Join(Words(s), ' ')
  {
    CollapseWords(s);
    var ws := Words(s);
    JoinedWordsEnds(ws);
    var tail := ws != [] && EndsInSpace(s);
    if s != [] && IsSpace(s[0]) {
      StripAround(Collapse(s), Join(ws, ' '), true, tail);
    } else {
      StripAround(Collapse(s), Join(ws, ' '), false, tail);
    }
  }

  /** Stripping removes an optional space on either side of text that starts and ends with no whitespace. */
  lemma StripAround(c: string, j: string, lead: bool, tail: bool)
    requires j == [] || (!IsSpace(j[0]) && !IsSpace(j[|j| - 1]))
    requires j == [] ==> !tail
    requires lead ==> c == " " + j + (if tail then " " else "")
    requires !lead ==> c == j + (if tail then " " else "")
    ensures Trim(c) == j
  {
    var p := if lead then " " else "";
    var q := if tail then " " else "";
    assert c == p + (j + q);
    TrimStartSpaces(p, j + q);
    TrimEndSpaces(j, q);
  }

  /** Words are counted from the first non-whitespace character. */
  lemma WordsOfTrimStart(s: string)
    ensures Words(TrimStart(s)) == Words(s)
  {
    var t := TrimStart(s);
    assert TrimStart(t) == t;
  }

  /** Collapsing a word-initial text passes its leading word through unchanged. */
  lemma {:induction false} CollapseLeadingWord(t: string)
    ensures Collapse(t) == LeadingWord(t) + Collapse(t[|LeadingWord(t)|..])
    decreases |t|
  {
    if t != [] && !IsSpace(t[0]) {
      var tl := t[1..];
      var w := LeadingWord(tl);
      CollapseLeadingWord(tl);
      WordCons(t);
      assert tl[|w|..] == t[|LeadingWord(t)|..];
      ConsAssoc(t[0], w, Collapse(tl[|w|..]));
    } else {
      assert LeadingWord(t) == [];
      assert t[0..] == t;
    }
  }

  lemma ConsAssoc(c: char, w: string, x: string)
    ensures [c] + (w + x) == ([c] + w) + x
  {
  }

  lemma WordCons(t: string)
    requires t != [] && !IsSpace(t[0])
    ensures LeadingWord(t) == [t[0]] + LeadingWord(t[1..])
    ensures Collapse(t) == [t[0]] + Collapse(t[1..])
  {
  }

  /** `s` ends with a whitespace character. */
  predicate EndsInSpace(s: string) {
    s != [] && IsSpace(s[|s| - 1])
  }

  lemma {:induction false} CollapseWordsFrom(t: string)
    requires t == [] || !IsSpace(t[0])
    ensures Collapse(t) == Join(Words(t), ' ') + (if Words(t) != [] && EndsInSpace(t) then " " else "")
    decreases |t|
  {
    if t != [] {
      var w := LeadingWord(t);
      var rest := t[|w|..];
      WordsOfWordInitial(t);
      CollapseLeadingWord(t);
      if rest == [] {
        WholeWord(t);
      } else {
        var u := TrimStart(rest);
        WordsOfTrimStart(rest);
        CollapseSpaceInitial(rest);
        CollapseWordsFrom(u);
        SameEnd(t, rest, u);
        GlueWord(w, Words(u), Collapse(rest), Collapse(u), EndsInSpace(t));
      }
    }
  }

  lemma WordsOfWordInitial(t: string)
    requires t != [] && !IsSpace(t[0])
    ensures Words(t) == [LeadingWord(t)] + Words(t[|LeadingWord(t)|..])
  {
    assert TrimStart(t) == t;
  }

  lemma CollapseSpaceInitial(s: string)
    requires s != [] && IsSpace(s[0])
    ensures Collapse(s) == " " + Collapse(TrimStart(s))
  {
  }

  /** A text that is all one word: no words after it, and no whitespace at its end. */
  lemma WholeWord(t: string)
    requires t != [] && !IsSpace(t[0]) && |LeadingWord(t)| == |t|
    ensures LeadingWord(t) == t && Words(t[|t|..]) == [] && !EndsInSpace(t)
  {
    var w := LeadingWord(t);
    assert w == t[..|w|] == t;
    assert !IsSpace(w[|w| - 1]);
  }

  /** `rest` is a suffix of `t` that starts with whitespace, `u` what is left of it after that whitespace. */
  lemma SameEnd(t: string, rest: string, u: string)
    requires rest != [] && |rest| <= |t| && rest == t[|t| - |rest|..]
    requires IsSpace(rest[0]) && u == TrimStart(rest)
    ensures u == [] ==> EndsInSpace(t)
    ensures u != [] ==> (EndsInSpace(u) <==> EndsInSpace(t))
  {
    assert t[|t| - 1] == rest[|rest| - 1];
    if u == [] {
      assert IsSpace(rest[|rest| - 1]);
    } else {
      assert u[|u| - 1] == rest[|rest| - 1];
    }
  }

  lemma GlueWord(w: string, ws: seq<string>, cRest: string, cU: string, ends: bool)
    requires cRest == " " + cU
    requires ws == [] ==> cU == [] && ends
    requires ws != [] ==> cU == Join(ws, ' ') + (if ends then " " else "")
    ensures w + cRest == Join([w] + ws, ' ') + (if ends then " " else "")
  {
    var all := [w] + ws;
    assert all[0] == w;
    if ws != [] {
      assert all[1..] == ws;
    }
  }

  /** Words joined by spaces start and end with a non-whitespace character. */
  lemma {:induction false} JoinedWordsEnds(ws: seq<string>)
    requires forall k :: 0 <= k < |ws| ==> IsWord(ws[k])
    ensures var j := Join(ws, ' ');
            (j == [] <==> ws == []) && (j == [] || (!IsSpace(j[0]) && !IsSpace(j[|j| - 1])))
    decreases |ws|
  {
    if |ws| > 1 {
      JoinedWordsEnds(ws[1..]);
      var j := Join(ws, ' ');
      var r := Join(ws[1..], ' ');
      assert j == ws[0] + " " + r;
      assert j[0] == ws[0][0];
      assert j[|j| - 1] == r[|r| - 1];
    } else if |ws| == 1 {
      assert IsWord(ws[0]);
    }
  }

  lemma {:induction false} TrimStartSpaces(p: string, r: string)
    requires forall k :: 0 <= k < |p| ==> IsSpace(p[k])
    requires r == [] || !IsSpace(r[0])
    ensures TrimStart(p + r) == r
    decreases |p|
  {
    if p == [] {
      assert p + r == r;
    } else {
      assert (p + r)[1..] == p[1..] + r;
      TrimStartSpaces(p[1..], r);
    }
  }

  lemma {:induction false} TrimEndSpaces(r: string, q: string)
    requires forall k :: 0 <= k < |q| ==> IsSpace(q[k])
    requires r == [] || !IsSpace(r[|r| - 1])
    ensures TrimEnd(r + q) == r
    decreases |q|
  {
    if q == [] {
      assert r + q == r;
    } else {
      var rq := r + q;
      assert rq[..|rq| - 1] == r + q[..|q| - 1];
      TrimEndSpaces(r, q[..|q| - 1]);
    }
  }

  datatype RawEmail = RawEmail(subject: Option<string>, body: Option<string>)

  datatype PreprocessedEmail = PreprocessedEmail(
    subject: string,
    body: string,
    cleanedText: string,
    orderNumbers: seq<string>,
    urgencyLevel: Urgency,
    length: nat,
    hasOrderNumber: bool)

  /** `preprocess_email`. */
  function PreprocessEmail(raw: RawEmail): (p: PreprocessedEmail)
    ensures p.subject == raw.subject.GetOr("") && p.body == raw.body.GetOr("")
    ensures p.cleanedText == Join(Words(p.subject + ". " + p.body), ' ')
    ensures WellSpaced(p.cleanedText)
    ensures NonSpace(p.cleanedText) == NonSpace(p.subject + ". " + p.body)
    ensures '.' in p.cleanedText && p.length == |p.cleanedText| >= 1
    ensures NoDuplicates(p.orderNumbers)
    ensures forall c :: c in p.orderNumbers <==> IsOrderNumber(p.cleanedText, c)
    ensures p.hasOrderNumber <==> p.orderNumbers != []
    ensures p.urgencyLevel == DetectUrgency(p.cleanedText)
  {
    var subject := raw.subject.GetOr("");
    var body := raw.body.GetOr("");
    var full := subject + ". " + body;
    var cleaned := Clean(full);
    var numbers := OrderNumbers(cleaned);
    CleanIsJoinedWords(full);
    CleanShape(full);
    OrderNumbersExactly(cleaned);
    DotSurvives(subject, body);
    PreprocessedEmail(subject, body, cleaned, numbers, DetectUrgency(cleaned), |cleaned|, |numbers| > 0)
  }

  /** The "." that joins subject and body is never whitespace, so cleaning keeps it. */
  lemma DotSurvives(subject: string, body: string)
    ensures '.' in Clean(subject + ". " + body)
  {
    var full := subject + ". " + body;
    var tail := ". " + body;
    assert full == subject + tail;
    CleanShape(full);
    NonSpaceAppend(subject, tail);
    assert tail[0] == '.' && !IsSpace('.');
    assert NonSpace(tail) == ['.'] + NonSpace(tail[1..]);
    assert NonSpace(full)[|NonSpace(subject)|] == '.';
    NonSpaceIn(Clean(full), '.');
  }

  lemma {:induction false} NonSpaceIn(s: string, c: char)
    requires c in NonSpace(s)
    ensures c in s
    decreases |s|
  {
    if s != [] && c != s[0] {
      NonSpaceIn(s[1..], c);
    }
  }
}
