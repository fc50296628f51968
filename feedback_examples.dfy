/**
 * Worked inputs for the feedback parser: what `parseFeedback` makes of
 * replies that follow, or miss, the layout the evaluation prompt asks for.
 */
module FeedbackExamples {
  import opened Strings
  import opened InterviewModel
  import opened FeedbackParser

  /** `pat` occurs in `a + pat + b` right after `a`. */
  lemma OccursBetween(a: string, pat: string, b: string)
    ensures StartsWithAt(a + pat + b, |a|, pat)
  {
    assert (a + pat + b)[|a|..|a| + |pat|] == pat;
  }

  const Unclamped := "Communication Skills: 250/100"

  /** In `Unclamped` the heading is at 0 and its score digits start at 22. */
  lemma UnclampedMatch()
    ensures FirstMatch(Unclamped, CommunicationLabel, 0, 22)
    ensures DigitRunEnd(Unclamped, 22) == 25
  {
    var s := Unclamped;
    assert StartsWithAt(s, 0, CommunicationLabel + ":");
    assert DigitRunEnd(s, 22) == 25;
    assert StartsWithAt(s, 25, ScoreMarker);
    assert SameLine(s, 21, 22);
    assert Candidate(s, CommunicationLabel, 0, 22);
    assert !ScoreRunAt(s, 21);
  }

  /** Scores are not clamped: "250/100" is read as 250. */
  lemma ScoreNotClamped()
    ensures Get(Unclamped, CommunicationLabel) == 250
  {
    UnclampedMatch();
    GetOfFirstMatch(Unclamped, CommunicationLabel, 0, 22);
    assert Unclamped[22..25] == "250";
    assert "250"[..2] == "25" && "25"[..1] == "2" && "2"[..0] == "";
  }

  /** Labels are matched case-sensitively: a lower-case heading is not recognised. */
  lemma LowerCaseLabelIgnored()
    ensures CategoryOf("communication skills: 85/100", CommunicationLabel) == EmptyCategory
  {
    assert 'C' !in "communication skills: 85/100";
    HeadingCharMissing("communication skills: 85/100", CommunicationLabel, 0);
  }

  /** The score must be on the heading's line: a score on the next line is not found. */
  lemma ScoreOnNextLineIgnored()
    ensures CategoryOf("Communication Skills:\n85/100", CommunicationLabel) == EmptyCategory
  {
    var s := "Communication Skills:\n85/100";
    forall p: nat, q: nat ensures !Candidate(s, CommunicationLabel, p, q) {
      OccurrenceChar(s, p, CommunicationLabel + ":", 0);
      if p == 0 {
        assert IsLineTerminator(s[21]);
      }
    }
    CategoryWithoutMatch(s, CommunicationLabel);
  }

  // A reply in the layout the evaluation prompt requests: bold heading with
  // the score, explanation on the following line, then the bold summary.
  const Line := CommunicationLabel + ":" + " " + "85" + ScoreMarker + Stars
  const Head := Stars + Line
  const Body := "\nGreat clarity.\n"
  const Tail := "**" + OverallPhrase + "**\nSolid."
  const Sample := Head + (Body + Tail)

  /**
   * In the requested layout the closing "**" follows the score directly, so
   * the category's text is empty although an explanation is present.
   */
  lemma SampleCommunication()
    ensures CategoryOf(Sample, CommunicationLabel) == Category(85, "")
  {
    var s := Sample;
    OccursBetween(Stars, Line, Body + Tail);
    assert Stars + Line + (Body + Tail) == s;
    assert s[..2] == Stars;
    NoOccurrenceBefore(s, CommunicationLabel + ":", 2);
    assert "85"[..1] == "8" && "8"[..0] == "";
    TemplateLineCategory(s, CommunicationLabel, 2, " ", "85");
  }

  /** The summary phrase first occurs at 50 in `Sample`. */
  lemma SampleOverallAt()
    ensures StartsWithAt(Sample, 50, OverallPhrase)
    ensures forall k: nat :: k < 50 ==> !StartsWithAt(Sample, k, OverallPhrase)
    ensures Sample[67..] == "**\nSolid."
  {
    var s := Sample;
    assert |Head + Body| == 48;
    assert s == (Head + Body) + Tail;
    assert 'O' !in Head;
    assert 'O' !in Body;
    assert s[..50] == (Head + Body) + "**";
    NoOccurrenceBefore(s, OverallPhrase, 50);
    OccursBetween(Head + Body + "**", OverallPhrase, "**\nSolid.");
    assert Head + Body + "**" + OverallPhrase + "**\nSolid." == s;
    assert |OverallPhrase| == 17;
    assert s[67..] == "**\nSolid.";
  }

  /** The overall summary keeps the "**" that closes the bold phrase. */
  lemma SampleOverall()
    ensures OverallOf(Sample) == "**\nSolid."
  {
    SampleOverallAt();
    assert |OverallPhrase| == 17;
    assert Sample[67] == "**\nSolid."[0];
    OverallOfFirstPhrase(Sample, 50, 67);
    TrimTrimmed("**\nSolid.");
  }

  lemma SampleLacksT() ensures 'T' !in Sample { assert 'T' !in Head; assert 'T' !in Body; assert 'T' !in Tail; }
  lemma SampleLacksP() ensures 'P' !in Sample { assert 'P' !in Head; assert 'P' !in Body; assert 'P' !in Tail; }
  lemma SampleLacksAmp() ensures '&' !in Sample { assert '&' !in Head; assert '&' !in Body; assert '&' !in Tail; }
  lemma SampleLacksF() ensures 'f' !in Sample { assert 'f' !in Head; assert 'f' !in Body; assert 'f' !in Tail; }

  /** Categories the reply does not mention keep their defaults. */
  lemma SampleMissingCategories()
    ensures CategoryOf(Sample, TechnicalLabel) == EmptyCategory
    ensures CategoryOf(Sample, ProblemSolvingLabel) == EmptyCategory
    ensures CategoryOf(Sample, CulturalFitLabel) == EmptyCategory
    ensures CategoryOf(Sample, ConfidenceLabel) == EmptyCategory
  {
    SampleMissingFirstTwo();
    SampleMissingCulturalFit();
    SampleMissingConfidence();
  }

  lemma SampleMissingFirstTwo()
    ensures CategoryOf(Sample, TechnicalLabel) == EmptyCategory
    ensures CategoryOf(Sample, ProblemSolvingLabel) == EmptyCategory
  {
    SampleLacksT();
    HeadingCharMissing(Sample, TechnicalLabel, 0);
    SampleLacksP();
    HeadingCharMissing(Sample, ProblemSolvingLabel, 0);
  }

  lemma SampleMissingCulturalFit()
    ensures CategoryOf(Sample, CulturalFitLabel) == EmptyCategory
  {
    SampleLacksAmp();
    HeadingCharMissing(Sample, CulturalFitLabel, 9);
  }

  lemma SampleMissingConfidence()
    ensures CategoryOf(Sample, ConfidenceLabel) == EmptyCategory
  {
    SampleLacksF();
    HeadingCharMissing(Sample, ConfidenceLabel, 3);
  }

  /** The whole parse of the sample reply. */
  lemma SampleParse()
    ensures ParseFeedback(Sample) == Feedback(Category(85, ""), EmptyCategory, EmptyCategory, EmptyCategory, EmptyCategory, "**\nSolid.")
  {
    SampleCommunication();
    SampleMissingCategories();
    SampleOverall();
  }
}
