/**
 * The feedback parser: turns the free text returned by the evaluation model
 * into a `Feedback` record. For each heading it behaves as the regular
 * expression
 *
 *     <heading>:.*?(\d+)/100 ... (?=\*\*|$)
 *
 * without flags: the heading is matched literally and case-sensitively, `.*?`
 * stays on one line, and `$` is the end of the input. The score capture
 * (`get`) and the text capture (`getText`) use two expressions with the same
 * prefix and a suffix that always succeeds, so both select the same
 * occurrence; the model finds it once, by `FindMatch`.
 */
module FeedbackParser {
  import opened Options
  import opened Strings
  import opened InterviewModel

  const CommunicationLabel := "Communication Skills"
  const TechnicalLabel := "Technical Knowledge"
  const ProblemSolvingLabel := "Problem-solving"
  const CulturalFitLabel := "Cultural & Role Fit"
  const ConfidenceLabel := "Confidence and Clarity"
  const OverallPhrase := "Overall Feedback:"
  const ScoreMarker := "/100"
  const Stars := "**"

  // ---------------------------------------------------------------------------
  // What the regular expression accepts
  // ---------------------------------------------------------------------------

  /** No line terminator in `s[i..j]`: `.*` can cross from `i` to `j`. */
  predicate SameLine(s: string, i: nat, j: nat) {
    i <= j <= |s| && forall k :: i <= k < j ==> !IsLineTerminator(s[k])
  }

  /** A digit run starts at `q`, and as a whole it is followed by `/100` (`(\d+)/100` matches at `q`). */
  predicate ScoreRunAt(s: string, q: nat) {
    q < |s| && IsDigit(s[q]) && StartsWithAt(s, DigitRunEnd(s, q), ScoreMarker)
  }

  /** `<heading>:.*?(\d+)/100` can match with the heading at `p` and the captured digits starting at `q`. */
  predicate Candidate(s: string, heading: string, p: nat, q: nat) {
    StartsWithAt(s, p, heading + ":") && SameLine(s, p + |heading| + 1, q) && ScoreRunAt(s, q)
  }

  /**
   * The match JavaScript reports: the leftmost heading position that can match at
   * all, and there the lazy `.*?` takes the shortest way to a digit run.
   */
  ghost predicate FirstMatch(s: string, heading: string, p: nat, q: nat) {
    && Candidate(s, heading, p, q)
    && (forall p': nat, q': nat :: p' < p ==> !Candidate(s, heading, p', q'))
    && (forall q': nat :: q' < q ==> !Candidate(s, heading, p, q'))
  }

  // ---------------------------------------------------------------------------
  // The matcher
  // ---------------------------------------------------------------------------

  /** From `q`, the first position on the same line where a score run begins (the lazy `.*?(\d+)/100`). */
  function ScanScore(s: string, q: nat): (r: Option<nat>)
    requires q <= |s|
    ensures r.Some? ==> SameLine(s, q, r.value) && ScoreRunAt(s, r.value)
    ensures r.Some? ==> forall x :: q <= x < r.value ==> !ScoreRunAt(s, x)
    ensures r.None? ==> forall x: nat :: SameLine(s, q, x) ==> !ScoreRunAt(s, x)
    decreases |s| - q
  {
    if ScoreRunAt(s, q) then Some(q)
    else if q < |s| && !IsLineTerminator(s[q]) then ScanScore(s, q + 1)
    else None
  }

  /** The first match at or after heading position `from`: heading position and digit position. */
  function FindMatch(s: string, heading: string, from: nat): (r: Option<(nat, nat)>)
    requires from <= |s|
    ensures r.Some? ==> from <= r.value.0 && Candidate(s, heading, r.value.0, r.value.1)
    ensures r.Some? ==> forall p: nat, q: nat :: from <= p < r.value.0 ==> !Candidate(s, heading, p, q)
    ensures r.Some? ==> forall q: nat :: q < r.value.1 ==> !Candidate(s, heading, r.value.0, q)
    ensures r.None? ==> forall p: nat, q: nat :: from <= p ==> !Candidate(s, heading, p, q)
    decreases |s| - from
  {
    match FindFrom(s, heading + ":", from)
    case None => None
    case Some(p) =>
      match ScanScore(s, p + |heading| + 1)
      case Some(q) => Some((p, q))
      case None => FindMatch(s, heading, p + 1)
  }

  /** The end of the score marker after the digits at `q`, clipped to the input. */
  function MarkerEnd(s: string, q: nat): (m: nat)
    requires q <= |s|
    ensures m <= |s|
  {
    var e := DigitRunEnd(s, q);
    if e + |ScoreMarker| <= |s| then e + |ScoreMarker| else |s|
  }

  /**
   * `get(heading)`: the captured digits read as a decimal number, or 0 when the
   * pattern does not match anywhere.
   */
  function Get(s: string, heading: string): (n: nat)
    ensures || (exists p: nat, q: nat :: FirstMatch(s, heading, p, q) && n == DecimalValue(s[q..DigitRunEnd(s, q)]))
            || ((forall p: nat, q: nat :: !Candidate(s, heading, p, q)) && n == 0)
  {
    match FindMatch(s, heading, 0)
    case None => 0
    case Some((p, q)) =>
      assert FirstMatch(s, heading, p, q);
      DecimalValue(s[q..DigitRunEnd(s, q)])
  }

  /** The text captured after `/100` and its whitespace, up to the next `**` or the end, trimmed. */
  function TextAfter(s: string, m: nat): string
    requires m <= |s|
  {
    var w := SkipWs(s, m);
    Trim(s[w..FindFrom(s, Stars, w).GetOr(|s|)])
  }

  /**
   * `getText(heading)`: the feedback text of the first match, or `""` when the
   * pattern does not match. The text is trimmed, and it is empty unless the
   * heading matches somewhere.
   */
  function GetText(s: string, heading: string): (t: string)
    ensures Trimmed(t)
    ensures (forall p: nat, q: nat :: !Candidate(s, heading, p, q)) ==> t == ""
    ensures t != "" ==> exists p: nat, q: nat :: FirstMatch(s, heading, p, q)
  {
    match FindMatch(s, heading, 0)
    case None => ""
    case Some((p, q)) =>
      assert FirstMatch(s, heading, p, q);
      TextAfter(s, MarkerEnd(s, q))
  }

  /** What a parsed category can be: the schema default, or the reading of a real match; its text is trimmed. */
  ghost predicate CategoryFits(s: string, heading: string, c: Category) {
    Trimmed(c.feedback) && (c == EmptyCategory || exists p: nat, q: nat :: FirstMatch(s, heading, p, q))
  }

  /** One category: score and text from the same occurrence of the heading. */
  function CategoryOf(s: string, heading: string): (c: Category)
    ensures CategoryFits(s, heading, c)
    ensures (forall p: nat, q: nat :: !Candidate(s, heading, p, q)) ==> c == EmptyCategory
  {
    Category(Get(s, heading), GetText(s, heading))
  }

  /**
   * Everything after the first `Overall Feedback:` and its whitespace, trimmed,
   * or `""`; a non-empty summary needs the phrase in the text.
   */
  function OverallOf(s: string): (r: string)
    ensures Trimmed(r)
    ensures r != "" ==> exists p: nat :: StartsWithAt(s, p, OverallPhrase)
  {
    match FindFrom(s, OverallPhrase, 0)
    case None => ""
    case Some(p) => Trim(s[SkipWs(s, p + |OverallPhrase|)..])
  }

  /**
   * `parseFeedback`: total, and always fills all five categories and the
   * summary. Each category is its default or read from a match of its own
   * heading, every text is trimmed, and a summary needs the phrase.
   */
  function ParseFeedback(s: string): (f: Feedback)
    ensures CategoryFits(s, CommunicationLabel, f.communicationSkills)
    ensures CategoryFits(s, TechnicalLabel, f.technicalKnowledge)
    ensures CategoryFits(s, ProblemSolvingLabel, f.problemSolving)
    ensures CategoryFits(s, CulturalFitLabel, f.culturalFit)
    ensures CategoryFits(s, ConfidenceLabel, f.confidenceAndClarity)
    ensures Trimmed(f.overallFeedback)
    ensures f.overallFeedback != "" ==> exists p: nat :: StartsWithAt(s, p, OverallPhrase)
  {
    Feedback(
      CategoryOf(s, CommunicationLabel),
      CategoryOf(s, TechnicalLabel),
      CategoryOf(s, ProblemSolvingLabel),
      CategoryOf(s, CulturalFitLabel),
      CategoryOf(s, ConfidenceLabel),
      OverallOf(s))
  }

  // ---------------------------------------------------------------------------
  // Properties of the parser
  // ---------------------------------------------------------------------------

  /** `FindMatch` from the start reports exactly the first match. */
  lemma FindMatchIsFirst(s: string, heading: string, p: nat, q: nat)
    requires FirstMatch(s, heading, p, q)
    ensures FindMatch(s, heading, 0) == Some((p, q))
  {
    var r := FindMatch(s, heading, 0);
    assert r.Some?;
    var (p', q') := r.value;
    assert !(p' < p) && !(p < p');
    assert !(q' < q) && !(q < q');
  }

  /** The score of a heading whose first match is at (`p`, `q`): the value of the whole digit run at `q`. */
  lemma GetOfFirstMatch(s: string, heading: string, p: nat, q: nat)
    requires FirstMatch(s, heading, p, q)
    ensures Get(s, heading) == DecimalValue(s[q..DigitRunEnd(s, q)])
  {
    FindMatchIsFirst(s, heading, p, q);
  }

  /**
   * The text of a heading whose first match is at (`p`, `q`): it runs from `w`,
   * the end of the whitespace that follows `/100`, to `t`, the first `**` at or
   * after `w` (or the end of the input), trimmed.
   */
  lemma GetTextOfFirstMatch(s: string, heading: string, p: nat, q: nat, w: nat, t: nat)
    requires FirstMatch(s, heading, p, q)
    requires DigitRunEnd(s, q) + 4 <= w <= t <= |s|
    requires forall k :: DigitRunEnd(s, q) + 4 <= k < w ==> IsWs(s[k])
    requires w == |s| || !IsWs(s[w])
    requires t == |s| || StartsWithAt(s, t, Stars)
    requires forall k :: w <= k < t ==> !StartsWithAt(s, k, Stars)
    ensures GetText(s, heading) == Trim(s[w..t])
  {
    GetTextAfterMarker(s, heading, p, q);
    var m := MarkerEnd(s, q);
    TextAfterSpan(s, m, w, t);
    assert GetText(s, heading) == TextAfter(s, m);
  }

  /** The text of the first match is read from just past its `/100`. */
  lemma GetTextAfterMarker(s: string, heading: string, p: nat, q: nat)
    requires FirstMatch(s, heading, p, q)
    ensures MarkerEnd(s, q) == DigitRunEnd(s, q) + 4
    ensures GetText(s, heading) == TextAfter(s, MarkerEnd(s, q))
  {
    FindMatchIsFirst(s, heading, p, q);
  }

  /** `TextAfter(s, m)` is the trimmed span from the end `w` of the whitespace at `m` to the first `**` `t`. */
  lemma TextAfterSpan(s: string, m: nat, w: nat, t: nat)
    requires m <= w <= t <= |s|
    requires forall k :: m <= k < w ==> IsWs(s[k])
    requires w == |s| || !IsWs(s[w])
    requires t == |s| || StartsWithAt(s, t, Stars)
    requires forall k :: w <= k < t ==> !StartsWithAt(s, k, Stars)
    ensures TextAfter(s, m) == Trim(s[w..t])
  {
    SkipWsUnique(s, m, w);
    if t < |s| {
      FindFromUnique(s, Stars, w, t);
    }
  }

  /** A heading with no match keeps the schema defaults: score 0, text `""`. */
  lemma CategoryWithoutMatch(s: string, heading: string)
    requires forall p: nat, q: nat :: !Candidate(s, heading, p, q)
    ensures CategoryOf(s, heading) == EmptyCategory
  {
  }

  /** A heading that does not occur followed by `:` cannot match, which covers a wrongly capitalised heading. */
  lemma CategoryWithoutLabel(s: string, heading: string)
    requires forall p: nat :: !StartsWithAt(s, p, heading + ":")
    ensures CategoryOf(s, heading) == EmptyCategory
  {
    CategoryWithoutMatch(s, heading);
  }

  /** The captured digits form a whole run: the character before them is not a digit. */
  lemma FirstMatchWholeRun(s: string, heading: string, p: nat, q: nat)
    requires FirstMatch(s, heading, p, q)
    ensures 0 < q && !IsDigit(s[q - 1])
  {
    var start := p + |heading| + 1;
    assert (heading + ":")[|heading|] == ':';
    assert s[p..p + |heading| + 1][|heading|] == ':';
    if q == start {
      assert s[q - 1] == ':';
    } else if IsDigit(s[q - 1]) {
      assert DigitRunEnd(s, q - 1) == DigitRunEnd(s, q);
      assert Candidate(s, heading, p, q - 1);
      assert false;
    }
  }

  /**
   * With the `**Label: N/100**` layout of the prompt template, the `**` right
   * after the score ends the capture, so the feedback text is empty.
   */
  lemma StarsAfterScoreGiveEmptyText(s: string, heading: string, p: nat, q: nat)
    requires FirstMatch(s, heading, p, q)
    requires StartsWithAt(s, SkipWs(s, MarkerEnd(s, q)), Stars)
    ensures GetText(s, heading) == ""
  {
    FindMatchIsFirst(s, heading, p, q);
    var w := SkipWs(s, MarkerEnd(s, q));
    assert FindFrom(s, Stars, w) == Some(w);
    assert s[w..w] == "";
    TrimNoWs("");
  }

  /** Digits followed by `/100` at `q` form a score run that ends where the digits end. */
  lemma ScoreRunOfDigits(s: string, q: nat, digits: string)
    requires |digits| > 0 && AllDigits(digits)
    requires StartsWithAt(s, q, digits + ScoreMarker)
    ensures DigitRunEnd(s, q) == q + |digits| && ScoreRunAt(s, q)
    ensures s[q..q + |digits|] == digits
  {
    OccurrenceSplit(s, q, digits, ScoreMarker);
    forall k | q <= k < q + |digits| ensures IsDigit(s[k]) {
      OccurrenceChar(s, q, digits, k - q);
    }
    OccurrenceChar(s, q + |digits|, ScoreMarker, 0);
    DigitRunEndUnique(s, q, q + |digits|);
  }

  /** A gap without digits or line terminators stays on one line and holds no score run. */
  lemma GapWithoutScore(s: string, g: nat, gap: string)
    requires forall k :: 0 <= k < |gap| ==> !IsDigit(gap[k]) && !IsLineTerminator(gap[k])
    requires StartsWithAt(s, g, gap)
    ensures SameLine(s, g, g + |gap|)
    ensures forall k :: g <= k < g + |gap| ==> !ScoreRunAt(s, k)
  {
    forall k | g <= k < g + |gap| ensures !IsDigit(s[k]) && !IsLineTerminator(s[k]) {
      OccurrenceChar(s, g, gap, k - g);
    }
  }

  /** The heading at `p`, a gap with no score run, then a score run at `q`: the first match when no earlier heading occurs. */
  lemma FirstMatchAfterGap(s: string, heading: string, p: nat, q: nat)
    requires StartsWithAt(s, p, heading + ":")
    requires SameLine(s, p + |heading| + 1, q) && ScoreRunAt(s, q)
    requires forall k :: p + |heading| + 1 <= k < q ==> !ScoreRunAt(s, k)
    requires forall k: nat :: k < p ==> !StartsWithAt(s, k, heading + ":")
    ensures FirstMatch(s, heading, p, q)
  {
  }

  /** Where `<heading>:<gap><digits>/100**` at the first heading puts the match, its digits and the `**`. */
  lemma TemplateLineMatch(s: string, heading: string, p: nat, gap: string, digits: string, q: nat, e: nat)
    requires forall k :: 0 <= k < |gap| ==> !IsDigit(gap[k]) && !IsLineTerminator(gap[k])
    requires |digits| > 0 && AllDigits(digits)
    requires StartsWithAt(s, p, heading + ":" + gap + digits + ScoreMarker + Stars)
    requires forall k: nat :: k < p ==> !StartsWithAt(s, k, heading + ":")
    requires q == p + |heading| + 1 + |gap| && e == q + |digits|
    ensures FirstMatch(s, heading, p, q)
    ensures DigitRunEnd(s, q) == e && e <= |s| && s[q..e] == digits
    ensures StartsWithAt(s, e + 4, Stars)
  {
    var h := heading + ":";
    assert h + gap + digits + ScoreMarker + Stars == h + gap + (digits + ScoreMarker) + Stars;
    OccurrenceSplit(s, p, h + gap + (digits + ScoreMarker), Stars);
    OccurrenceSplit(s, p, h + gap, digits + ScoreMarker);
    OccurrenceSplit(s, p, h, gap);
    ScoreRunOfDigits(s, q, digits);
    GapWithoutScore(s, p + |h|, gap);
    FirstMatchAfterGap(s, heading, p, q);
  }

  /**
   * The layout the prompt template asks for, `<heading>:<gap><digits>/100**`,
   * at the first occurrence of the heading: the score is the value of the
   * digits and, because `**` closes the capture straight away, the text is
   * empty whatever explanation follows.
   */
  lemma TemplateLineCategory(s: string, heading: string, p: nat, gap: string, digits: string)
    requires forall k :: 0 <= k < |gap| ==> !IsDigit(gap[k]) && !IsLineTerminator(gap[k])
    requires |digits| > 0 && AllDigits(digits)
    requires StartsWithAt(s, p, heading + ":" + gap + digits + ScoreMarker + Stars)
    requires forall k: nat :: k < p ==> !StartsWithAt(s, k, heading + ":")
    ensures CategoryOf(s, heading) == Category(DecimalValue(digits), "")
  {
    var q := p + |heading| + 1 + |gap|;
    var e := q + |digits|;
    TemplateLineMatch(s, heading, p, gap, digits, q, e);
    ScoreThenStars(s, heading, p, q, e, digits);
  }

  /** A first match whose digits run to `e` and are followed by `/100**`: score from the digits, empty text. */
  lemma ScoreThenStars(s: string, heading: string, p: nat, q: nat, e: nat, digits: string)
    requires FirstMatch(s, heading, p, q)
    requires DigitRunEnd(s, q) == e && s[q..e] == digits
    requires StartsWithAt(s, e + 4, Stars)
    ensures CategoryOf(s, heading) == Category(DecimalValue(digits), "")
  {
    GetOfFirstMatch(s, heading, p, q);
    StarsRightAfterMarker(s, q, e);
    StarsAfterScoreGiveEmptyText(s, heading, p, q);
  }

  /** `**` right after the `/100` that ends the digits at `q` is where the text capture starts. */
  lemma StarsRightAfterMarker(s: string, q: nat, e: nat)
    requires q <= |s| && DigitRunEnd(s, q) == e
    requires StartsWithAt(s, e + 4, Stars)
    ensures StartsWithAt(s, SkipWs(s, MarkerEnd(s, q)), Stars)
  {
    assert MarkerEnd(s, q) == e + 4;
    OccurrenceChar(s, e + 4, Stars, 0);
    SkipWsUnique(s, e + 4, e + 4);
  }

  /**
   * The summary is everything after the first `Overall Feedback:` and the
   * whitespace that follows it, up to the end of the input, trimmed; `**` is kept.
   */
  lemma OverallOfFirstPhrase(s: string, p: nat, w: nat)
    requires StartsWithAt(s, p, OverallPhrase)
    requires forall k :: 0 <= k < p ==> !StartsWithAt(s, k, OverallPhrase)
    requires p + |OverallPhrase| <= w <= |s|
    requires forall k :: p + |OverallPhrase| <= k < w ==> IsWs(s[k])
    requires w == |s| || !IsWs(s[w])
    ensures OverallOf(s) == Trim(s[w..])
  {
    var f := FindFrom(s, OverallPhrase, 0);
    assert f == Some(p) by { assert !(f.value < p); }
    SkipWsUnique(s, p + |OverallPhrase|, w);
  }

  /** Without the phrase `Overall Feedback:` the summary is `""`. */
  lemma OverallWithoutPhrase(s: string)
    requires forall k: nat :: !StartsWithAt(s, k, OverallPhrase)
    ensures OverallOf(s) == ""
  {
  }

  lemma ColonAfterHeading(s: string, heading: string, p: nat)
    requires StartsWithAt(s, p, heading + ":")
    ensures s[p + |heading|] == ':' && ':' in s
  {
    assert (heading + ":")[|heading|] == ':';
    assert s[p..p + |heading| + 1][|heading|] == ':';
  }

  /** Text containing no colon at all parses to the schema defaults. */
  lemma {:induction false} ParseWithoutColon(s: string)
    requires ':' !in s
    ensures ParseFeedback(s) == DefaultFeedback
  {
    forall heading: string, p: nat ensures !StartsWithAt(s, p, heading + ":") {
      if StartsWithAt(s, p, heading + ":") {
        ColonAfterHeading(s, heading, p);
      }
    }
    CategoryWithoutLabel(s, CommunicationLabel);
    CategoryWithoutLabel(s, TechnicalLabel);
    CategoryWithoutLabel(s, ProblemSolvingLabel);
    CategoryWithoutLabel(s, CulturalFitLabel);
    CategoryWithoutLabel(s, ConfidenceLabel);
    assert OverallPhrase == "Overall Feedback" + ":";
  }

  /** A heading one of whose characters never occurs in `s` keeps the defaults. */
  lemma HeadingCharMissing(s: string, heading: string, i: nat)
    requires i < |heading| && heading[i] !in s
    ensures CategoryOf(s, heading) == EmptyCategory
  {
    assert (heading + ":")[i] == heading[i];
    forall p: nat ensures !StartsWithAt(s, p, heading + ":") {
      OccurrenceChar(s, p, heading + ":", i);
    }
    CategoryWithoutLabel(s, heading);
  }

  /** `pat` cannot occur before `p` when its first character does not. */
  lemma NoOccurrenceBefore(s: string, pat: string, p: nat)
    requires |pat| > 0 && p <= |s| && pat[0] !in s[..p]
    ensures forall k: nat :: k < p ==> !StartsWithAt(s, k, pat)
  {
    forall k: nat | k < p ensures !StartsWithAt(s, k, pat) {
      OccurrenceChar(s, k, pat, 0);
      assert s[..p][k] == s[k];
    }
  }

  /** The empty text parses to the schema defaults. */
  lemma ParseEmpty()
    ensures ParseFeedback("") == DefaultFeedback
  {
    ParseWithoutColon("");
  }
}
