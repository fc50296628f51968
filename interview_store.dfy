/**
 * The interview collection as the service uses it: an in-memory store of
 * interview records on which `generateInterview` appends and
 * `processTranscript` completes a record in place.
 */
module Store {
  import opened Options
  import opened InterviewModel
  import opened InterviewService

  /** A record once its session has been evaluated; nothing else about it changes. */
  function Complete(iv: Interview, transcript: seq<Entry>, feedback: Feedback, now: Timestamp): (r: Interview)
    ensures r.transcript == transcript && r.feedback == feedback
    ensures r.status == Completed && r.completedAt == Some(now)
    ensures r.(transcript := iv.transcript, feedback := iv.feedback, status := iv.status, completedAt := iv.completedAt) == iv
  {
    iv.(transcript := transcript, feedback := feedback, status := Completed, completedAt := Some(now))
  }

  /** Replacing one record by one with the same id keeps every id in place. */
  lemma SameIdsAfterUpdate(rs: seq<Interview>, i: nat, u: Interview)
    requires i < |rs| && u.id == rs[i].id
    ensures |rs[i := u]| == |rs|
    ensures forall k :: 0 <= k < |rs| ==> rs[i := u][k].id == rs[k].id
  {
  }

  /**
   * The interview collection: the stored records and the next id to hand out.
   */
  class InterviewStore {
    var records: seq<Interview>
    var nextId: nat

    /** Every record has its own id, below `nextId`. */
    ghost predicate Valid()
      reads this
    {
      (forall i :: 0 <= i < |records| ==> records[i].id < nextId)
      && (forall i, j :: 0 <= i < j < |records| ==> records[i].id != records[j].id)
    }

    constructor()
      ensures Valid()
      ensures records == [] && nextId == 0
    {
      records := [];
      nextId := 0;
    }

    /**
     * `generateInterview`. The user id is checked before anything is sent to
     * the model; any failure of the model call or of the reply leaves the store
     * as it was; a success appends exactly one new, pending record.
     * `gen` answers the prompt, `parseJson` is `JSON.parse`, `cover` is the
     * picked cover image. `sent` lists the prompts sent to the model.
     */
    method GenerateInterview(body: InterviewRequest, userId: UserIdInput, gen: string -> AiReply,
                             parseJson: string -> Json, cover: string)
      returns (r: Result<Interview, GenError>, sent: seq<string>)
      requires Valid()
      modifies this
      ensures Valid()
      ensures !ValidUserId(userId) ==> r == Failure(InvalidUserId) && sent == []
      ensures ValidUserId(userId) ==> sent == [QuestionPrompt(body)]
      ensures ValidUserId(userId) && QuestionsOf(gen(QuestionPrompt(body)), parseJson).None?
              ==> r == Failure(GenerationFailed)
      ensures ValidUserId(userId) && QuestionsOf(gen(QuestionPrompt(body)), parseJson).Some? && body.techstack.None?
              ==> r == Failure(TechstackMissing)
      ensures ValidUserId(userId) && QuestionsOf(gen(QuestionPrompt(body)), parseJson).Some? && body.techstack.Some?
              ==> r.Success?
      ensures r.Failure? ==> records == old(records) && nextId == old(nextId)
      ensures r.Success? ==>
                ValidUserId(userId) && body.techstack.Some?
                && QuestionsOf(gen(QuestionPrompt(body)), parseJson).Some?
                && r.value == Interview(old(nextId), body.role, body.kind, body.level,
                                        SplitTechstack(body.techstack.value),
                                        QuestionsOf(gen(QuestionPrompt(body)), parseJson).value,
                                        NumberOf(userId).value, true, cover, [], DefaultFeedback, Pending, None)
                && records == old(records) + [r.value]
                && nextId == old(nextId) + 1
    {
      if !ValidUserId(userId) {
        return Failure(InvalidUserId), [];
      }
      var prompt := QuestionPrompt(body);
      sent := [prompt];
      var questions := QuestionsOf(gen(prompt), parseJson);
      if questions.None? {
        return Failure(GenerationFailed), sent;
      }
      if body.techstack.None? {
        return Failure(TechstackMissing), sent;
      }
      var interview := Interview(nextId, body.role, body.kind, body.level,
                                 SplitTechstack(body.techstack.value), questions.value,
                                 NumberOf(userId).value, true, cover, [], DefaultFeedback, Pending, None);
      records := records + [interview];
      nextId := nextId + 1;
      r := Success(interview);
    }

    /**
     * `processTranscript`. With no record of the user nothing is sent and
     * nothing changes. Otherwise one record of the user (`chosen`) receives the
     * transcript, the feedback parsed from the evaluation of the rendered
     * transcript, the completed status and the completion time `now`; every
     * other record is untouched. A failed evaluation is parsed as its failure
     * text, never raised. `ai` answers the prompt; `sent` lists the prompts sent.
     */
    method ProcessTranscript(userId: int, transcript: seq<Entry>, ai: string -> AiReply, now: Timestamp)
      returns (r: ProcessResult, sent: seq<string>, chosen: Option<nat>)
      requires Valid()
      modifies this
      ensures Valid()
      ensures nextId == old(nextId)
      ensures r.NotFound? <==> forall i :: 0 <= i < |old(records)| ==> old(records)[i].userId != userId
      ensures r.NotFound? ==> records == old(records) && sent == [] && chosen == None
      ensures r.Success() <==> r.Processed?
      ensures r.Message() == if r.Processed? then "Transcript processed" else "Interview not found"
      ensures r.Processed? ==>
                chosen.Some? && chosen.value < |old(records)| && old(records)[chosen.value].userId == userId
                && sent == [EvaluationPrompt(RenderTranscript(transcript))]
                && r == Processed(|transcript|, EvaluateTranscript(transcript, ai))
                && records == old(records)[chosen.value := Complete(old(records)[chosen.value], transcript, r.feedback, now)]
    {
      var found := FindRecordOf(userId);
      if found.None? {
        return NotFound, [], None;
      }
      var prompt := EvaluationPrompt(RenderTranscript(transcript));
      sent := [prompt];
      var feedback := EvaluateTranscript(transcript, ai);
      CompleteRecord(found.value, transcript, feedback, now);
      r := Processed(|transcript|, feedback);
      chosen := found;
    }

    /**
     * `findOne({userId})`: some record of the user, or none when the user has
     * none. The sort on `createdAt` cannot order records the service never
     * stamps, so which of several records is found is left open.
     */
    method FindRecordOf(userId: int) returns (found: Option<nat>)
      ensures found.None? <==> forall i :: 0 <= i < |records| ==> records[i].userId != userId
      ensures found.Some? ==> found.value < |records| && records[found.value].userId == userId
    {
      if forall i :: 0 <= i < |records| ==> records[i].userId != userId {
        return None;
      }
      var i :| 0 <= i < |records| && records[i].userId == userId;
      return Some(i);
    }

    /** Writes the evaluation into record `i` in place; the ids, and so `Valid()`, are kept. */
    method CompleteRecord(i: nat, transcript: seq<Entry>, feedback: Feedback, now: Timestamp)
      requires Valid() && i < |records|
      modifies this
      ensures Valid()
      ensures nextId == old(nextId)
      ensures records == old(records)[i := Complete(old(records)[i], transcript, feedback, now)]
    {
      SameIdsAfterUpdate(records, i, Complete(records[i], transcript, feedback, now));
      records := records[i := Complete(records[i], transcript, feedback, now)];
    }
  }
}
