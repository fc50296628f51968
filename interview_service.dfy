/**
 * The interview service: the string helpers that prepare what is sent to and
 * received from the language model, the prompts themselves, the handling of
 * the evaluation reply, the user-id guard, and the pure pieces the two store
 * operations (module `Store`) are specified with. The model's HTTP calls and
 * the JSON parser are parameters.
 */
module InterviewService {
  import opened Options
  import opened Strings
  import opened InterviewModel
  import opened FeedbackParser

  // ---------------------------------------------------------------------------
  // Transcript rendering
  // ---------------------------------------------------------------------------

  /** One transcript entry as the evaluation prompt shows it: `role: text`. */
  function Line(e: Entry): string {
    e.role + ": " + e.text
  }

  /** The rendered entries, in transcript order. */
  function Lines(t: seq<Entry>): (ls: seq<string>)
    ensures |ls| == |t|
    ensures forall i :: 0 <= i < |t| ==> ls[i] == Line(t[i])
  {
    if t == [] then [] else [Line(t[0])] + Lines(t[1..])
  }

  /** The transcript text handed to the model: the rendered entries joined by newlines. */
  function RenderTranscript(t: seq<Entry>): (r: string)
    ensures t == [] ==> r == ""
  {
    Join(Lines(t), '\n')
  }

  /** An entry whose role and text hold no newline renders as exactly one line. */
  predicate SingleLine(e: Entry) {
    '\n' !in e.role && '\n' !in e.text
  }

  lemma {:induction false} LineHasNoNewline(e: Entry)
    requires SingleLine(e)
    ensures '\n' !in Line(e)
  {
    assert Line(e) == e.role + ": " + e.text;
    assert '\n' !in ": ";
  }

  /**
   * The rendering is one line per entry, in order: splitting it at newlines
   * gives back exactly the rendered entries.
   */
  lemma RenderSplitsIntoLines(t: seq<Entry>)
    requires |t| >= 1
    requires forall i :: 0 <= i < |t| ==> SingleLine(t[i])
    ensures Split(RenderTranscript(t), '\n') == Lines(t)
  {
    var ls := Lines(t);
    forall k | 0 <= k < |ls| ensures '\n' !in ls[k] {
      LineHasNoNewline(t[k]);
    }
    SplitJoin(ls, '\n');
  }

  /** n >= 1 single-line entries give exactly n - 1 newlines. */
  lemma RenderNewlineCount(t: seq<Entry>)
    requires |t| >= 1
    requires forall i :: 0 <= i < |t| ==> SingleLine(t[i])
    ensures CountChar(RenderTranscript(t), '\n') == |t| - 1
  {
    RenderSplitsIntoLines(t);
  }

  /** A two-turn session as the model receives it. */
  lemma RenderTwoTurns()
    ensures RenderTranscript([Entry("assistant", "Hello", "t0"), Entry("user", "Hi", "t1")])
         == "assistant: Hello\nuser: Hi"
  {
    var t := [Entry("assistant", "Hello", "t0"), Entry("user", "Hi", "t1")];
    assert Line(t[0]) == "assistant: Hello" && Line(t[1]) == "user: Hi";
    assert Lines(t) == ["assistant: Hello", "user: Hi"];
    assert Join(["assistant: Hello", "user: Hi"], '\n') == "assistant: Hello" + "\n" + "user: Hi";
  }

  // ---------------------------------------------------------------------------
  // Cleaning the model's reply
  // ---------------------------------------------------------------------------

  const JsonFence := "```json"
  const Fence := "```"

  /**
   * Global removal of Markdown code fences, scanning left to right: at each
   * position an opening "```json" is tried before a bare "```"; any other
   * character is kept.
   */
  function RemoveFences(s: string): (r: string)
    ensures |r| <= |s|
    decreases |s|
  {
    if StartsWith(s, JsonFence) then RemoveFences(s[|JsonFence|..])
    else if StartsWith(s, Fence) then RemoveFences(s[|Fence|..])
    else if s == [] then []
    else [s[0]] + RemoveFences(s[1..])
  }

  /** The cleaned reply handed to the JSON parser: fences removed, then trimmed. */
  function CleanResponse(raw: string): (r: string)
    ensures Trimmed(r) && |r| <= |raw|
  {
    var r := Trim(RemoveFences(raw));
    var a :| PaddedBy(RemoveFences(raw), a, r);
    r
  }

  /** Text starting with a character other than a backtick starts no fence. */
  lemma NoFenceAt(s: string)
    requires |s| > 0 && s[0] != '`'
    ensures !StartsWith(s, JsonFence) && !StartsWith(s, Fence)
  {
    OccurrenceChar(s, 0, JsonFence, 0);
    OccurrenceChar(s, 0, Fence, 0);
  }

  /** Backtick-free text in front of the rest passes through unchanged. */
  lemma {:induction false} RemoveFencesKeepsPlainPrefix(x: string, y: string)
    requires '`' !in x
    ensures RemoveFences(x + y) == x + RemoveFences(y)
    decreases |x|
  {
    if x != [] {
      var s := x + y;
      assert s[0] == x[0];
      NoFenceAt(s);
      assert RemoveFences(s) == [s[0]] + RemoveFences(s[1..]);
      assert s[1..] == x[1..] + y;
      assert '`' !in x[1..];
      RemoveFencesKeepsPlainPrefix(x[1..], y);
    } else {
      assert x + y == y;
    }
  }

  /** Fence removal changes nothing in text without backticks. */
  lemma RemoveFencesWithoutBackticks(s: string)
    requires '`' !in s
    ensures RemoveFences(s) == s
  {
    RemoveFencesKeepsPlainPrefix(s, "");
    assert s + "" == s;
  }

  /** Cleaning text without backticks is just trimming. */
  lemma CleanWithoutBackticks(s: string)
    requires '`' !in s
    ensures CleanResponse(s) == Trim(s)
  {
    RemoveFencesWithoutBackticks(s);
  }

  /**
   * A bare opening fence directly followed by "json" is read as a "```json"
   * fence; otherwise it is just "```".
   */
  lemma BareFenceOpening(x: string)
    requires '`' !in x && !StartsWith(x, "json")
    ensures !StartsWith(Fence + x + Fence, JsonFence)
  {
    var s := Fence + x + Fence;
    if |x| >= 4 {
      OccurrenceChar(x, 0, "json", 0);
      assert s[3..7] == x[..4];
    } else {
      assert s[3 + |x|] == '`';
    }
    OccurrenceChar(s, 0, JsonFence, 3 + if |x| >= 4 then 0 else |x|);
  }

  /** Removing the framing fences leaves the backtick-free payload. */
  lemma RemoveFencesAroundPayload(open: string, x: string)
    requires open == JsonFence || (open == Fence && !StartsWith(x, "json"))
    requires '`' !in x
    ensures RemoveFences(open + x + Fence) == x
  {
    var s := open + x + Fence;
    if open == JsonFence {
      assert StartsWith(s, JsonFence);
    } else {
      BareFenceOpening(x);
      assert StartsWith(s, Fence);
    }
    assert s[|open|..] == x + Fence;
    RemoveFencesKeepsPlainPrefix(x, Fence);
    assert RemoveFences(Fence) == [];
    assert x + [] == x;
  }

  /**
   * A payload wrapped in "```json ... ```", or in "``` ... ```" when it does
   * not itself begin with "json", is recovered, trimmed.
   */
  lemma CleanFencedPayload(x: string)
    requires '`' !in x
    ensures CleanResponse(JsonFence + x + Fence) == Trim(x)
    ensures !StartsWith(x, "json") ==> CleanResponse(Fence + x + Fence) == Trim(x)
  {
    RemoveFencesAroundPayload(JsonFence, x);
    if !StartsWith(x, "json") {
      RemoveFencesAroundPayload(Fence, x);
    }
  }

  // ---------------------------------------------------------------------------
  // Tech stack
  // ---------------------------------------------------------------------------

  /** Each piece trimmed, in order. */
  function TrimAll(parts: seq<string>): (r: seq<string>)
    ensures |r| == |parts|
    ensures forall i :: 0 <= i < |parts| ==> r[i] == Trim(parts[i])
  {
    if parts == [] then [] else [Trim(parts[0])] + TrimAll(parts[1..])
  }

  /** Trimming introduces no character. */
  lemma TrimKeepsOut(s: string, c: char)
    requires c !in s
    ensures c !in Trim(s)
  {
    var r := Trim(s);
    var a: nat :| PaddedBy(s, a, r);
    forall k | 0 <= k < |r| ensures r[k] != c {
      assert r[k] == s[a..a + |r|][k] == s[a + k];
    }
  }

  /**
   * The stored tech stack: the request's comma-separated list, split at every
   * comma and each piece trimmed. k commas give k + 1 entries, in order; each
   * entry is the corresponding comma-free field with its surrounding
   * whitespace removed (`Trim`'s contract says what that removal keeps).
   */
  function SplitTechstack(s: string): (r: seq<string>)
    ensures |r| == CountChar(s, ',') + 1
    ensures Join(Split(s, ','), ',') == s
    ensures |r| == |Split(s, ',')|
    ensures forall i :: 0 <= i < |r| ==> r[i] == Trim(Split(s, ',')[i]) && Trimmed(r[i]) && ',' !in r[i]
  {
    var parts := Split(s, ',');
    var r := TrimAll(parts);
    forall i | 0 <= i < |r| ensures ',' !in r[i] {
      TrimKeepsOut(parts[i], ',');
    }
    r
  }

  /** Joining comma-free fields with commas and splitting again trims each field. */
  lemma SplitTechstackOfJoin(fields: seq<string>)
    requires |fields| >= 1
    requires forall k :: 0 <= k < |fields| ==> ',' !in fields[k]
    ensures SplitTechstack(Join(fields, ',')) == TrimAll(fields)
  {
    SplitJoin(fields, ',');
  }

  lemma EmptyFieldSample()
    ensures Join(["a", "", "b"], ',') == "a,,b"
    ensures TrimAll(["a", "", "b"]) == ["a", "", "b"]
  {
    TrimTrimmed("a");
    TrimTrimmed("b");
    TrimTrimmed("");
  }

  lemma SpacedFieldSample()
    ensures Join(["React", " Node.js"], ',') == "React, Node.js"
    ensures TrimAll(["React", " Node.js"]) == ["React", "Node.js"]
  {
    TrimTrimmed("React");
    SpacedFieldTrim();
  }

  lemma SpacedFieldTrim()
    ensures Trim(" Node.js") == "Node.js"
  {
    assert PaddedBy(" Node.js", 1, "Node.js");
    TrimUnique(" Node.js", 1, "Node.js");
  }

  /** Empty fields are kept: "a,,b" gives ["a", "", "b"]. */
  lemma TechstackKeepsEmptyFields()
    ensures SplitTechstack("a,,b") == ["a", "", "b"]
  {
    EmptyFieldSample();
    SplitTechstackOfJoin(["a", "", "b"]);
  }

  /** Spaces after the commas are dropped: "React, Node.js" gives ["React", "Node.js"]. */
  lemma TechstackTrimsFields()
    ensures SplitTechstack("React, Node.js") == ["React", "Node.js"]
  {
    SpacedFieldSample();
    SplitTechstackOfJoin(["React", " Node.js"]);
  }

  // ---------------------------------------------------------------------------
  // Prompts and the evaluation reply
  // ---------------------------------------------------------------------------

  /**
   * The fields of a generation request. `kind` is the `type` field; a field
   * the request leaves out is `None`.
   */
  datatype InterviewRequest = InterviewRequest(
    kind: Option<string>,
    role: Option<string>,
    level: Option<string>,
    techstack: Option<string>,
    amount: Option<string>)

  /** A template-literal interpolation: a missing field renders as "undefined". */
  function Shown(field: Option<string>): string {
    field.GetOr("undefined")
  }

  /**
   * A template literal: the fixed pieces with the values spliced in between,
   * `pieces[0] + values[0] + pieces[1] + ... + pieces[n]`.
   */
  function Interpolate(pieces: seq<string>, values: seq<string>): (r: string)
    requires |pieces| == |values| + 1
    ensures StartsWith(r, pieces[0])
  {
    if values == [] then pieces[0]
    else pieces[0] + values[0] + Interpolate(pieces[1..], values[1..])
  }

  /** Where piece `i` begins in the interpolated text: the length of everything before it. */
  function Offset(pieces: seq<string>, values: seq<string>, i: nat): nat
    requires |pieces| == |values| + 1 && i <= |values|
  {
    if i == 0 then 0 else |pieces[0]| + |values[0]| + Offset(pieces[1..], values[1..], i - 1)
  }

  /** Text that starts with `pat` at `k` does so at `|a| + k` once `a` is put in front. */
  lemma OccurrenceShifted(a: string, b: string, k: nat, pat: string)
    requires StartsWithAt(b, k, pat)
    ensures StartsWithAt(a + b, |a| + k, pat)
  {
    assert (a + b)[|a| + k..|a| + k + |pat|] == b[k..k + |pat|];
  }

  /** A prefix of `b` also starts `a + b` once shifted past `a`, and `a + pat` starts it. */
  lemma PrefixJoined(a: string, b: string, pat: string)
    requires StartsWith(b, pat)
    ensures StartsWith(a + b, a + pat)
  {
    assert (a + b)[..|a| + |pat|] == a + b[..|pat|];
  }

  /**
   * Value `i` of a template literal is spliced in between the fixed pieces `i`
   * and `i + 1`: that text occurs where piece `i` begins.
   */
  lemma {:induction false} InterpolateAt(pieces: seq<string>, values: seq<string>, i: nat)
    requires |pieces| == |values| + 1 && i < |values|
    ensures StartsWithAt(Interpolate(pieces, values), Offset(pieces, values, i), pieces[i] + values[i] + pieces[i + 1])
  {
    var rest := Interpolate(pieces[1..], values[1..]);
    assert Interpolate(pieces, values) == (pieces[0] + values[0]) + rest;
    if i == 0 {
      PrefixJoined(pieces[0] + values[0], rest, pieces[1]);
    } else {
      InterpolateAt(pieces[1..], values[1..], i - 1);
      OccurrenceShifted(pieces[0] + values[0], rest, Offset(pieces[1..], values[1..], i - 1), pieces[i] + values[i] + pieces[i + 1]);
    }
  }

  /** `value` appears in `r` between the fixed texts `before` and `after`. */
  ghost predicate Spliced(r: string, before: string, value: string, after: string) {
    exists k: nat :: StartsWithAt(r, k, before + value + after)
  }

  /** The fixed text of the question-generation prompt, around its five fields. */
  const QuestionPieces := [
    "\nPrepare ",
    " interview questions for a job.\nThe job role is ",
    "\nThe job experience level is ",
    ".\nThe tech stack used in the job is: ",
    ".\nThe focus between behavioural and technical questions should lean towards: ",
    ".\nReturn ONLY a JSON array like [\"Question 1\", \"Question 2\"].\nDo NOT add explanation.\nDo NOT use / or * or Markdown formatting.\n"]

  /** The question-generation prompt, with the request fields interpolated. */
  function QuestionPrompt(body: InterviewRequest): (r: string)
    ensures StartsWith(r, QuestionPieces[0])
  {
    Interpolate(QuestionPieces, QuestionValues(body))
  }

  /** The values the question prompt interpolates, in the order they appear. */
  function QuestionValues(body: InterviewRequest): seq<string> {
    [Shown(body.amount), Shown(body.role), Shown(body.level), Shown(body.techstack), Shown(body.kind)]
  }

  /**
   * Every request field is written into the question prompt right where the
   * template places it: the count, role, level, tech stack and focus, each
   * between its fixed neighbouring texts.
   */
  lemma QuestionPromptShowsFields(body: InterviewRequest)
    ensures Spliced(QuestionPrompt(body), QuestionPieces[0], Shown(body.amount), QuestionPieces[1])
    ensures Spliced(QuestionPrompt(body), QuestionPieces[1], Shown(body.role), QuestionPieces[2])
    ensures Spliced(QuestionPrompt(body), QuestionPieces[2], Shown(body.level), QuestionPieces[3])
    ensures Spliced(QuestionPrompt(body), QuestionPieces[3], Shown(body.techstack), QuestionPieces[4])
    ensures Spliced(QuestionPrompt(body), QuestionPieces[4], Shown(body.kind), QuestionPieces[5])
  {
    var values := QuestionValues(body);
    InterpolateAt(QuestionPieces, values, 0);
    InterpolateAt(QuestionPieces, values, 1);
    InterpolateAt(QuestionPieces, values, 2);
    InterpolateAt(QuestionPieces, values, 3);
    InterpolateAt(QuestionPieces, values, 4);
  }

  /** The fixed text of the evaluation prompt: the reply layout, then the transcript. */
  const EvaluationPieces := [
    "\nYou are an expert interviewer. Evaluate the candidate.\nDo NOT add extra headings. Use EXACT format:\n\n**Communication Skills: [SCORE]/100**\n[Feedback]\n\n**Technical Knowledge: [SCORE]/100**\n[Feedback]\n\n**Problem-solving: [SCORE]/100**\n[Feedback]\n\n**Cultural & Role Fit: [SCORE]/100**\n[Feedback]\n\n**Confidence and Clarity: [SCORE]/100**\n[Feedback]\n\n**Overall Feedback:**\n[Summary]\n\nTranscript:\n",
    "\n"]

  /** The evaluation prompt, with the rendered transcript interpolated. */
  function EvaluationPrompt(transcript: string): (r: string)
    ensures StartsWith(r, EvaluationPieces[0])
    ensures |r| > |transcript| && r[|r| - 1] == '\n'
    ensures r[|r| - 1 - |transcript|..|r| - 1] == transcript
  {
    var r := Interpolate(EvaluationPieces, [transcript]);
    assert EvaluationPieces[1..] == ["\n"] && [transcript][1..] == [];
    assert Interpolate(["\n"], []) == "\n";
    assert r == EvaluationPieces[0] + transcript + "\n";
    r
  }

  /**
   * What a call to the language model yields: the text of the first candidate's
   * first part (`""` when there is none), or the message of the error the call
   * raised.
   */
  datatype AiReply = Answered(text: string) | Failed(message: string)

  const EmptyFeedbackMessage := "Empty feedback from Gemini"
  const FailurePrefix := "Feedback failed: "

  /**
   * `analyzeTranscript` after its call: an empty reply is an error, and every
   * error is turned into the text "Feedback failed: " + message rather than
   * raised; a reply is trimmed.
   */
  function AnalyzeReply(reply: AiReply): (r: string)
    ensures reply.Failed? ==> r == FailurePrefix + reply.message
    ensures reply == Answered("") ==> r == FailurePrefix + EmptyFeedbackMessage
    ensures reply.Answered? && reply.text != "" ==> r == Trim(reply.text)
  {
    match reply
    case Answered(text) => if text == "" then FailurePrefix + EmptyFeedbackMessage else Trim(text)
    case Failed(message) => FailurePrefix + message
  }

  /** `m` contains none of the five headings followed by `:`, and not `Overall Feedback:`. */
  ghost predicate NamesNoHeading(m: string) {
    forall k: nat ::
      && !StartsWithAt(m, k, CommunicationLabel + ":")
      && !StartsWithAt(m, k, TechnicalLabel + ":")
      && !StartsWithAt(m, k, ProblemSolvingLabel + ":")
      && !StartsWithAt(m, k, CulturalFitLabel + ":")
      && !StartsWithAt(m, k, ConfidenceLabel + ":")
      && !StartsWithAt(m, k, OverallPhrase)
  }

  /** A message without a colon names no heading; this covers the empty-reply message. */
  lemma ColonFreeNamesNoHeading(m: string)
    requires ':' !in m
    ensures NamesNoHeading(m)
  {
    forall k: nat, pat: string | pat != [] && pat[|pat| - 1] == ':' ensures !StartsWithAt(m, k, pat) {
      OccurrenceChar(m, k, pat, |pat| - 1);
    }
    assert OverallPhrase == "Overall Feedback" + ":";
  }

  /**
   * A message without a capital C, T, P or O names no heading, whatever
   * colons, URLs or digits it holds.
   */
  lemma CapitalFreeNamesNoHeading(m: string)
    requires 'C' !in m && 'T' !in m && 'P' !in m && 'O' !in m
    ensures NamesNoHeading(m)
  {
    forall k: nat, pat: string | pat != [] && pat[0] in "CTPO" ensures !StartsWithAt(m, k, pat) {
      OccurrenceChar(m, k, pat, 0);
    }
    assert (CommunicationLabel + ":")[0] == 'C' && (TechnicalLabel + ":")[0] == 'T';
    assert (ProblemSolvingLabel + ":")[0] == 'P' && (CulturalFitLabel + ":")[0] == 'C';
    assert (ConfidenceLabel + ":")[0] == 'C' && OverallPhrase[0] == 'O';
  }

  /** A pattern starting with C, T, P or O cannot begin inside the failure prefix. */
  lemma PrefixHidesPattern(m: string, pat: string)
    requires |pat| > 0 && pat[0] in "CTPO"
    requires forall k: nat :: !StartsWithAt(m, k, pat)
    ensures forall k: nat :: !StartsWithAt(FailurePrefix + m, k, pat)
  {
    assert pat[0] !in FailurePrefix;
    NoOccurrenceAfterPrefix(FailurePrefix, m, pat);
  }

  /** The failure prefix starts none of the patterns, so a heading in the failure text must lie in `m`. */
  lemma FailureTextNamesNoHeading(m: string)
    requires NamesNoHeading(m)
    ensures NamesNoHeading(FailurePrefix + m)
  {
    assert (CommunicationLabel + ":")[0] == 'C' && (TechnicalLabel + ":")[0] == 'T';
    assert (ProblemSolvingLabel + ":")[0] == 'P' && (CulturalFitLabel + ":")[0] == 'C';
    assert (ConfidenceLabel + ":")[0] == 'C' && OverallPhrase[0] == 'O';
    PrefixHidesPattern(m, CommunicationLabel + ":");
    PrefixHidesPattern(m, TechnicalLabel + ":");
    PrefixHidesPattern(m, ProblemSolvingLabel + ":");
    PrefixHidesPattern(m, CulturalFitLabel + ":");
    PrefixHidesPattern(m, ConfidenceLabel + ":");
    PrefixHidesPattern(m, OverallPhrase);
  }

  /**
   * When the model call fails with a message that names no heading (true of
   * network and JSON errors, URLs and colons included, and of the empty-reply
   * message), the text handed to the parser yields the schema defaults
   * throughout: the error never reaches the caller and never looks like a score.
   */
  lemma FailedAnalysisGivesDefaults(m: string)
    requires NamesNoHeading(m)
    ensures ParseFeedback(AnalyzeReply(Failed(m))) == DefaultFeedback
  {
    var s := FailurePrefix + m;
    FailureTextNamesNoHeading(m);
    CategoryWithoutLabel(s, CommunicationLabel);
    CategoryWithoutLabel(s, TechnicalLabel);
    CategoryWithoutLabel(s, ProblemSolvingLabel);
    CategoryWithoutLabel(s, CulturalFitLabel);
    CategoryWithoutLabel(s, ConfidenceLabel);
    OverallWithoutPhrase(s);
  }

  /** An empty reply is reported, and parsed, as a failure. */
  lemma EmptyReplyGivesDefaults()
    ensures ParseFeedback(AnalyzeReply(Answered(""))) == DefaultFeedback
  {
    assert ':' !in EmptyFeedbackMessage;
    ColonFreeNamesNoHeading(EmptyFeedbackMessage);
    FailedAnalysisGivesDefaults(EmptyFeedbackMessage);
  }

  // ---------------------------------------------------------------------------
  // The user id check
  // ---------------------------------------------------------------------------

  /** The JSON value a request carries as `userId`. */
  datatype UserIdInput = Absent | Null | Flag(b: bool) | Num(n: int) | Text(t: string)

  /** JavaScript truthiness of the value. */
  predicate Truthy(u: UserIdInput) {
    match u
    case Absent => false
    case Null => false
    case Flag(b) => b
    case Num(n) => n != 0
    case Text(t) => t != ""
  }

  /**
   * `Number(t)` restricted to optionally signed decimal integer literals;
   * `None` covers every other text, including the hexadecimal, exponent,
   * fractional and `Infinity` literals that `Number` would read as numbers.
   */
  function NumericText(t: string): (r: Option<int>)
    ensures AllDigits(t) ==> r == Some(DecimalValue(t) as int)
    ensures r.Some? && r.value < 0 ==> t[0] == '-'
    ensures r.Some? && t != "" ==> AllDigits(t) || ((t[0] == '+' || t[0] == '-') && |t| > 1 && AllDigits(t[1..]))
  {
    if t == "" then Some(0)
    else if (t[0] == '+' || t[0] == '-') && |t| > 1 && AllDigits(t[1..]) then
      Some(if t[0] == '-' then -(DecimalValue(t[1..]) as int) else DecimalValue(t[1..]))
    else if AllDigits(t) then Some(DecimalValue(t))
    else None
  }

  /** `Number(u)`: the numeric conversion `isNaN` and the stored `userId` rely on. */
  function NumberOf(u: UserIdInput): (r: Option<int>)
    ensures u.Num? ==> r == Some(u.n)
    ensures u.Absent? ==> r == None
    ensures u.Null? || u == Text("") ==> r == Some(0)
    ensures u.Text? ==> r == NumericText(Trim(u.t))
  {
    match u
    case Absent => None
    case Null => Some(0)
    case Flag(b) => Some(if b then 1 else 0)
    case Num(n) => Some(n)
    case Text(t) => NumericText(Trim(t))
  }

  /** The guard of `generateInterview`: a truthy value that converts to a number. */
  predicate ValidUserId(u: UserIdInput): (b: bool)
    ensures b ==> !u.Absent? && !u.Null? && u != Num(0) && u != Text("") && u != Flag(false)
    ensures b ==> NumberOf(u).Some?
    ensures u.Num? ==> (b <==> u.n != 0)
  {
    Truthy(u) && NumberOf(u).Some?
  }

  /**
   * A positive id sent as its decimal text passes the guard and is stored as
   * that number: `Number(String(n)) == n`.
   */
  lemma ShownIdRoundTrip(n: nat)
    requires n > 0
    ensures ValidUserId(Text(ShowNat(n))) && NumberOf(Text(ShowNat(n))) == Some(n)
  {
    var t := ShowNat(n);
    forall k | 0 <= k < |t| ensures !IsWs(t[k]) {
      assert IsDigit(t[k]);
    }
    TrimNoWs(t);
    DecimalValueShowNat(n);
  }

  /**
   * An absent or null id, the number 0, and text that is not an optionally
   * signed decimal integer are rejected (so, unlike the source, `1e3` is
   * too); the text "0" is truthy and numeric, so it is accepted and stored
   * as user 0.
   */
  lemma UserIdEdgeCases(t: string)
    requires NumericText(Trim(t)) == None
    ensures !ValidUserId(Absent) && !ValidUserId(Null) && !ValidUserId(Num(0)) && !ValidUserId(Text(t))
    ensures ValidUserId(Text("0")) && NumberOf(Text("0")) == Some(0)
  {
    TrimTrimmed("0");
  }

  // ---------------------------------------------------------------------------
  // What the store operations produce
  // ---------------------------------------------------------------------------

  /** What `JSON.parse` makes of the cleaned reply. */
  datatype Json = Unparseable | JsonArray(items: seq<string>) | JsonValue

  /** Why `generateInterview` raised. */
  datatype GenError = InvalidUserId | GenerationFailed | TechstackMissing

  /** The message of the raised error. */
  function GenErrorMessage(e: GenError): (m: string)
    ensures e.InvalidUserId? <==> m == "Invalid userId given to generateInterview()"
    ensures e.GenerationFailed? <==> m == "AI question generation failed"
    ensures e.TechstackMissing? <==> m == "Cannot read properties of undefined (reading 'split')"
  {
    match e
    case InvalidUserId => "Invalid userId given to generateInterview()"
    case GenerationFailed => "AI question generation failed"
    case TechstackMissing => "Cannot read properties of undefined (reading 'split')"
  }

  /**
   * The question list the guarded block produces, or `None` when it raises:
   * a failed call, an empty reply, unparseable JSON and a non-array all raise.
   */
  function QuestionsOf(reply: AiReply, parseJson: string -> Json): (r: Option<seq<string>>)
    ensures reply.Failed? || reply == Answered("") ==> r == None
    ensures r.Some? <==> reply.Answered? && reply.text != "" && parseJson(CleanResponse(reply.text)).JsonArray?
    ensures r.Some? ==> parseJson(CleanResponse(reply.text)) == JsonArray(r.value)
  {
    match reply
    case Failed(_) => None
    case Answered(raw) =>
      if raw == "" then None
      else match parseJson(CleanResponse(raw))
        case JsonArray(items) => Some(items)
        case _ => None
  }

  /**
   * The feedback `processTranscript` stores: the evaluation prompt for the
   * rendered transcript is answered by `ai`, the answer (or its failure text)
   * is parsed.
   */
  function EvaluateTranscript(transcript: seq<Entry>, ai: string -> AiReply): (f: Feedback)
    ensures var reply := ai(EvaluationPrompt(RenderTranscript(transcript)));
            && (reply.Failed? ==> f == ParseFeedback(FailurePrefix + reply.message))
            && (reply.Answered? && reply.text != "" ==> f == ParseFeedback(Trim(reply.text)))
            && (reply == Answered("") ==> f == ParseFeedback(FailurePrefix + EmptyFeedbackMessage))
  {
    ParseFeedback(AnalyzeReply(ai(EvaluationPrompt(RenderTranscript(transcript)))))
  }

  /**
   * An evaluation that fails with a message naming no heading, or comes back
   * empty, stores the default feedback.
   */
  lemma FailedEvaluationStoresDefaults(transcript: seq<Entry>, ai: string -> AiReply)
    requires var reply := ai(EvaluationPrompt(RenderTranscript(transcript)));
             (reply.Failed? && NamesNoHeading(reply.message)) || reply == Answered("")
    ensures EvaluateTranscript(transcript, ai) == DefaultFeedback
  {
    var reply := ai(EvaluationPrompt(RenderTranscript(transcript)));
    if reply.Failed? {
      FailedAnalysisGivesDefaults(reply.message);
    } else {
      EmptyReplyGivesDefaults();
    }
  }

  /** The answer of `processTranscript`. */
  datatype ProcessResult = NotFound | Processed(answersCount: nat, feedback: Feedback) {
    predicate Success() { Processed? }
    function Message(): string {
      if Processed? then "Transcript processed" else "Interview not found"
    }
  }
}
