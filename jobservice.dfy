/**
 * The question-and-answer routes and the timer callbacks over the live job
 * store: POST /api/v1/qa, GET /api/v1/qa/:jobId, GET /api/v1/qa, and the two
 * `setTimeout` callbacks of `simulateAIMLProcessing`.
 */
module JobService {
  import opened Common
  import opened Jobs
  import opened Uuid
  import opened History
  import opened Lifecycle
  import opened Subscribers

  const MaxQuestionLength: nat := 10000

  /** Why POST /api/v1/qa turns a body away. */
  datatype Rejection =
    | MissingFields     // 400 'Question and company are required'
    | EmptyQuestion     // 400 'Question cannot be empty'
    | QuestionTooLong   // 413 'Question too long - maximum 10,000 characters'

  /**
   * The checks of POST /api/v1/qa, in order. The empty-question check comes
   * after the truthiness check, which already turns the empty string away,
   * so it never fires for a string.
   */
  function CheckSubmission(question: Option<string>, company: Option<string>): (r: Option<Rejection>)
    ensures r.None? <==> Present(question) && Present(company) && |question.value| <= MaxQuestionLength
    ensures r == Some(MissingFields) <==> !Present(question) || !Present(company)
    ensures r == Some(QuestionTooLong) <==> Present(question) && Present(company) && |question.value| > MaxQuestionLength
    ensures r != Some(EmptyQuestion)
  {
    if !Present(question) || !Present(company) then Some(MissingFields)
    else if |question.value| == 0 then Some(EmptyQuestion)
    else if |question.value| > MaxQuestionLength then Some(QuestionTooLong)
    else None
  }

  /** The reply of POST /api/v1/qa: 202 with the new job, or a rejection. */
  datatype SubmitReply =
    | Accepted(jobId: JobId, status: Status, submittedAt: Time)
    | Rejected(reason: Rejection)

  /** The reply of GET /api/v1/qa/:jobId. */
  datatype GetReply =
    | BadJobId              // 400 'Invalid job ID format'
    | JobNotFound           // 404 'Job not found'
    | Found(view: JobView)  // 200

  /**
   * GET /api/v1/qa/:jobId: the shape is checked before any lookup, and the
   * lookup uses the identifier exactly as given.
   */
  function GetJob(jobs: map<JobId, Job>, rawId: string): (r: GetReply)
    ensures r == BadJobId <==> !IsUuidV4(rawId)
    ensures r == JobNotFound <==> IsUuidV4(rawId) && rawId !in jobs
    ensures r.Found? <==> IsUuidV4(rawId) && rawId in jobs
    ensures r.Found? ==> r.view == Project(jobs[rawId])
  {
    if !IsUuidV4(rawId) then BadJobId
    else if rawId !in jobs then JobNotFound
    else Found(Project(jobs[rawId]))
  }

  /**
   * A job in a store that keeps the invariant is shown with its id, its
   * status, and a result exactly when done and an error exactly when failed.
   */
  lemma GetShowsConsistentJob(s: Store, rawId: string)
    requires Invariant(s)
    requires IsUuidV4(rawId) && rawId in s.jobs
    ensures var r := GetJob(s.jobs, rawId);
      && r.Found? && r.view.jobId == rawId && r.view.status == s.jobs[rawId].status
      && (r.view.result.Some? <==> r.view.status == Done)
      && (r.view.error.Some? <==> r.view.status == Failed)
      && (r.view.completedAt.Some? <==> r.view.status == Done)
  {
  }

  /**
   * The lookup is case-sensitive although the shape check is not: an
   * identifier that differs from every stored one, even only in the case of
   * its letters, is not found.
   */
  lemma CaseVariantNotFound()
    ensures var stored := "123e4567-e89b-4d3a-a456-426614174000";
      var asked := "123E4567-E89B-4D3A-A456-426614174000";
      var jobs := map[stored := NewJob(stored, "q", "c", "u", 0)];
      GetJob(jobs, asked) == JobNotFound && GetJob(jobs, stored).Found?
  {
    UpperCaseAccepted();
    var stored := "123e4567-e89b-4d3a-a456-426614174000";
    var asked := "123E4567-E89B-4D3A-A456-426614174000";
    assert asked[3] != stored[3];
  }

  /** The live job store and answer history. */
  class JobStore {
    /** The `jobs` map. */
    var jobs: map<JobId, Job>
    /** The `answers` array, newest first. */
    var answers: seq<AnswerRecord>

    function State(): Store
      reads this
    {
      Store(jobs, answers)
    }

    ghost predicate Valid()
      reads this
    {
      Invariant(State())
    }

    constructor ()
      ensures Valid() && jobs == map[] && answers == []
    {
      jobs, answers := map[], [];
    }

    /**
     * POST /api/v1/qa by `userId` (the identity of a verified token).
     * `freshId` is the identifier `uuidv4()` returns and `now` the clock.
     * Storing the job arms the first timer, which the environment fires
     * later as a call of FireQueueTimer.
     */
    method Submit(question: Option<string>, company: Option<string>, userId: UserId, freshId: JobId, now: Time)
      returns (reply: SubmitReply)
      requires Valid()
      modifies this
      ensures Valid() && answers == old(answers)
      ensures CheckSubmission(question, company).Some? ==>
        reply == Rejected(CheckSubmission(question, company).value) && jobs == old(jobs)
      ensures CheckSubmission(question, company).None? ==>
        && reply == Accepted(freshId, Queued, now)
        && jobs == old(jobs)[freshId := NewJob(freshId, question.value, company.value, userId, now)]
    {
      if !Present(question) || !Present(company) {
        return Rejected(MissingFields);
      }
      if |question.value| == 0 {
        return Rejected(EmptyQuestion);
      }
      if |question.value| > MaxQuestionLength {
        return Rejected(QuestionTooLong);
      }
      var job := NewJob(freshId, question.value, company.value, userId, now);
      jobs := jobs[freshId := job];
      reply := Accepted(freshId, Queued, now);
    }

    /** GET /api/v1/qa/:jobId against the live store. */
    function Get(rawId: string): (r: GetReply)
      reads this
      ensures (r == BadJobId) == !IsUuidV4(rawId)
      ensures r == JobNotFound <==> IsUuidV4(rawId) && rawId !in jobs
      ensures r.Found? ==> rawId in jobs && r.view == Project(jobs[rawId])
    {
      GetJob(jobs, rawId)
    }

    /** GET /api/v1/qa: the history, newest first, at most ten entries. */
    function ListAnswers(): (r: seq<AnswerRecord>)
      reads this
      ensures |r| <= Capacity
      ensures Valid() ==> r == answers
    {
      Listing(answers)
    }

    /** The first timer for `id` fires at time `at`. */
    method FireQueueTimer(id: JobId, at: Time, hub: Hub)
      requires Valid()
      modifies this, hub`outbox
      ensures Valid() && State() == Apply(old(State()), QueueTimerFired(id, at))
      ensures Notice(old(State()), QueueTimerFired(id, at)).None? ==> hub.outbox == old(hub.outbox)
      ensures Notice(old(State()), QueueTimerFired(id, at)).Some? ==>
        hub.outbox == old(hub.outbox) + Fanout(hub.entries, hub.open, Update(Notice(old(State()), QueueTimerFired(id, at)).value))
    {
      ApplyPreservesInvariant(State(), QueueTimerFired(id, at));
      if id in jobs && jobs[id].status == Queued {
        var job := jobs[id].(status := Running);
        jobs := jobs[id := job];
        hub.Broadcast(JobUpdate(job.jobId, job.status, at));
      }
    }

    /** The second timer for `id` fires at time `at`, with the drawn outcome. */
    method FireProcessingTimer(id: JobId, outcome: Outcome, at: Time, hub: Hub)
      requires Valid()
      modifies this, hub`outbox
      ensures Valid() && State() == Apply(old(State()), ProcessingTimerFired(id, outcome, at))
      ensures Notice(old(State()), ProcessingTimerFired(id, outcome, at)).None? ==> hub.outbox == old(hub.outbox)
      ensures Notice(old(State()), ProcessingTimerFired(id, outcome, at)).Some? ==>
        hub.outbox == old(hub.outbox)
                      + Fanout(hub.entries, hub.open, Update(Notice(old(State()), ProcessingTimerFired(id, outcome, at)).value))
    {
      ApplyPreservesInvariant(State(), ProcessingTimerFired(id, outcome, at));
      if id in jobs && jobs[id].status == Running {
        var job := jobs[id];
        match outcome {
          case TimedOut =>
            job := job.(status := Failed, error := Some(TimeoutMessage));
            jobs := jobs[id := job];
          case Answered(answer, confidence) =>
            var rec := AnswerRecord(job.question, job.company, answer, confidence, at);
            job := job.(status := Done, completedAt := Some(at), result := Some(rec));
            jobs := jobs[id := job];
            answers := [rec] + answers;
            if |answers| > Capacity {
              answers := answers[..|answers| - 1];
            }
        }
        hub.Broadcast(JobUpdate(job.jobId, job.status, at));
      }
    }
  }

  /**
   * A client of the store: submit, then both timers; the caller's reply says
   * queued, and afterwards the job reads as done with its answer, which heads
   * the listing, and the open subscriber got both updates.
   */
  method SubmitAndComplete(id: JobId, t0: Time, t1: Time, t2: Time) returns (reply: SubmitReply, after: GetReply, listed: seq<AnswerRecord>, sent: seq<Delivery>)
    requires IsUuidV4(id)
    ensures reply == Accepted(id, Queued, t0)
    ensures after.Found? && after.view.status == Done && after.view.error.None?
    ensures after.view.result == Some(AnswerRecord("What are Scope 1 emissions?", "Nokia", "answer", 0.9, t2))
    ensures listed == [after.view.result.value]
    ensures sent == [Delivery(7, AuthSucceeded), Delivery(7, Update(JobUpdate(id, Running, t1))), Delivery(7, Update(JobUpdate(id, Done, t2)))]
  {
    var store := new JobStore();
    var hub := new Hub();
    hub.Connect(7);
    hub.Receive(7, Json(Some("auth"), Some("token")), Some("analyst"));
    assert hub.entries == [Entry("analyst", 7)];
    reply := store.Submit(Some("What are Scope 1 emissions?"), Some("Nokia"), "analyst", id, t0);
    store.FireQueueTimer(id, t1, hub);
    assert hub.entries == [Entry("analyst", 7)] && 7 in hub.open;
    assert Fanout([Entry("analyst", 7)], hub.open, Update(JobUpdate(id, Running, t1))) == [Delivery(7, Update(JobUpdate(id, Running, t1)))];
    store.FireProcessingTimer(id, Answered("answer", 0.9), t2, hub);
    assert Fanout([Entry("analyst", 7)], hub.open, Update(JobUpdate(id, Done, t2))) == [Delivery(7, Update(JobUpdate(id, Done, t2)))];
    after := store.Get(id);
    listed := store.ListAnswers();
    sent := hub.outbox;
  }
}
