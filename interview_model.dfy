/**
 * The shape of a stored interview document (the `Interview` schema): job
 * descriptors, questions, the transcript of the voice session and the
 * structured feedback, whose five categories default to score 0 and empty
 * text and whose overall summary defaults to the empty string.
 */
module InterviewModel {
  import opened Options

  /** One scored feedback category: `{score, feedback}`. */
  datatype Category = Category(score: nat, feedback: string)

  /** The `feedback` sub-document: five categories plus the overall summary. */
  datatype Feedback = Feedback(
    communicationSkills: Category,
    technicalKnowledge: Category,
    problemSolving: Category,
    culturalFit: Category,
    confidenceAndClarity: Category,
    overallFeedback: string)

  /** A category as the schema defaults it. */
  const EmptyCategory := Category(0, "")

  /** The feedback sub-document as the schema defaults it. */
  const DefaultFeedback := Feedback(EmptyCategory, EmptyCategory, EmptyCategory, EmptyCategory, EmptyCategory, "")

  /** One turn of the voice session: `{role, text, timestamp}`. */
  datatype Entry = Entry(role: string, text: string, timestamp: string)

  /** The logical lifecycle of an interview: questions generated, then transcript analysed. */
  datatype Status = Pending | Completed

  /** Opaque instants; where the time comes from is not modelled. */
  type Timestamp = nat

  /**
   * A stored interview. `id` stands for the store-assigned `_id`; `kind` is the
   * `type` field. `role`, `kind` and `level` are `None` when the request left
   * them out.
   */
  datatype Interview = Interview(
    id: nat,
    role: Option<string>,
    kind: Option<string>,
    level: Option<string>,
    techstack: seq<string>,
    questions: seq<string>,
    userId: int,
    finalized: bool,
    coverImage: string,
    transcript: seq<Entry>,
    feedback: Feedback,
    status: Status,
    completedAt: Option<Timestamp>)
}
