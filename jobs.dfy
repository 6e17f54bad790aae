/** The job record kept in the job store and its projection for GET /api/v1/qa/:jobId. */
module Jobs {
  import opened Common

  datatype Status = Queued | Running | Done | Failed

  /** Position of a status along queued -> running -> done|failed. */
  function Rank(s: Status): nat {
    match s
    case Queued => 0
    case Running => 1
    case Done => 2
    case Failed => 2
  }

  predicate IsTerminal(s: Status) {
    s == Done || s == Failed
  }

  /** The `result` object of a finished job, also the element type of the answer history. */
  datatype AnswerRecord = AnswerRecord(
    question: string,
    company: string,
    answer: string,
    confidence: real,
    timestamp: Time)

  datatype Job = Job(
    jobId: JobId,
    question: string,
    company: string,
    status: Status,
    submittedAt: Time,
    userId: UserId,
    completedAt: Option<Time>,
    result: Option<AnswerRecord>,
    error: Option<string>)

  /** The only error text the engine ever stores on a job. */
  const TimeoutMessage: string := "AIML service timeout - please try again"

  /**
   * What every stored job satisfies: `result` and `completedAt` exactly when
   * done, `error` (the timeout text) exactly when failed, and a result that
   * echoes the job's own question and company.
   */
  ghost predicate Consistent(j: Job): (b: bool)
    ensures b ==> !(j.result.Some? && j.error.Some?)
    ensures b && !IsTerminal(j.status) ==> j.result.None? && j.completedAt.None? && j.error.None?
  {
    && (j.result.Some? <==> j.status == Done)
    && (j.completedAt.Some? <==> j.status == Done)
    && (j.error.Some? <==> j.status == Failed)
    && (j.error.Some? ==> j.error.value == TimeoutMessage)
    && (j.result.Some? ==> j.result.value.question == j.question && j.result.value.company == j.company)
  }

  /** The record POST /api/v1/qa stores. */
  function NewJob(id: JobId, question: string, company: string, userId: UserId, now: Time): (j: Job)
    ensures j.jobId == id && j.status == Queued && j.userId == userId && j.submittedAt == now
    ensures j.question == question && j.company == company
    ensures Consistent(j)
  {
    Job(id, question, company, Queued, now, userId, None, None, None)
  }

  /** The `{jobId, status, timestamp}` message broadcast after a job changes. */
  datatype JobUpdate = JobUpdate(jobId: JobId, status: Status, timestamp: Time)

  /** The response body of a successful GET /api/v1/qa/:jobId. */
  datatype JobView = JobView(
    jobId: JobId,
    status: Status,
    submittedAt: Time,
    completedAt: Option<Time>,
    result: Option<AnswerRecord>,
    error: Option<string>)

  /**
   * The base fields always; `completedAt`, `result` and `error` only when the
   * job's field is truthy. A timestamp is never falsy (its ISO text is never
   * empty) and a result object never is; an error string is falsy when empty.
   */
  function Project(j: Job): (v: JobView)
    ensures v.jobId == j.jobId && v.status == j.status && v.submittedAt == j.submittedAt
    ensures v.completedAt.Some? <==> j.completedAt.Some?
    ensures v.completedAt.Some? ==> v.completedAt == j.completedAt
    ensures v.result.Some? <==> j.result.Some?
    ensures v.result.Some? ==> v.result == j.result
    ensures v.error.Some? <==> j.error.Some? && j.error.value != ""
    ensures v.error.Some? ==> v.error == j.error
  {
    JobView(
      j.jobId, j.status, j.submittedAt,
      if j.completedAt.Some? then j.completedAt else None,
      if j.result.Some? then j.result else None,
      if j.error.Some? && j.error.value != "" then j.error else None)
  }

  /**
   * For a consistent job the response never shows a result unless the job is
   * done, nor an error unless it failed, and always shows them then.
   */
  lemma ViewMatchesStatus(j: Job)
    requires Consistent(j)
    ensures var v := Project(j);
      && (v.result.Some? <==> v.status == Done)
      && (v.completedAt.Some? <==> v.status == Done)
      && (v.error.Some? <==> v.status == Failed)
      && !(v.result.Some? && v.error.Some?)
  {
  }
}
