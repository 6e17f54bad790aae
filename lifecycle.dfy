/**
 * The job lifecycle of `simulateAIMLProcessing` as a state machine over the
 * job store and the answer history. The two `setTimeout` callbacks are
 * events; the random failure draw, the generated answer and confidence and
 * the clock are carried by the event.
 */
module Lifecycle {
  import opened Common
  import opened Jobs
  import opened History

  datatype Store = Store(jobs: map<JobId, Job>, answers: seq<AnswerRecord>)

  /** The draw of the second callback: the 10% timeout branch, or an answer. */
  datatype Outcome = TimedOut | Answered(answer: string, confidence: real)

  datatype Event =
    | QueueTimerFired(id: JobId, at: Time)
    | ProcessingTimerFired(id: JobId, outcome: Outcome, at: Time)

  /** What the store always satisfies: each job filed under its own id, each consistent, a bounded history. */
  ghost predicate Invariant(s: Store) {
    && (forall id | id in s.jobs :: s.jobs[id].jobId == id && Consistent(s.jobs[id]))
    && |s.answers| <= Capacity
  }

  /** The first callback: a job still queued starts running; anything else is left alone. */
  function StartProcessing(s: Store, id: JobId): (r: Store)
    ensures r.jobs.Keys == s.jobs.Keys && r.answers == s.answers
    ensures forall k | k in s.jobs && k != id :: r.jobs[k] == s.jobs[k]
    ensures r != s <==> id in s.jobs && s.jobs[id].status == Queued
    ensures r != s ==> r.jobs[id].status == Running && r.jobs[id].(status := Queued) == s.jobs[id]
  {
    if id in s.jobs && s.jobs[id].status == Queued then
      s.(jobs := s.jobs[id := s.jobs[id].(status := Running)])
    else
      s
  }

  /** The result a successful second callback records. */
  function ResultOf(j: Job, answer: string, confidence: real, at: Time): AnswerRecord {
    AnswerRecord(j.question, j.company, answer, confidence, at)
  }

  /**
   * The second callback: a job still running fails with the timeout message,
   * or completes with a result that is also put at the front of the history.
   */
  function FinishProcessing(s: Store, id: JobId, outcome: Outcome, at: Time): (r: Store)
    ensures r.jobs.Keys == s.jobs.Keys
    ensures forall k | k in s.jobs && k != id :: r.jobs[k] == s.jobs[k]
    ensures r != s <==> id in s.jobs && s.jobs[id].status == Running
    ensures r != s ==> IsTerminal(r.jobs[id].status) && r.jobs[id].jobId == s.jobs[id].jobId
    ensures r.answers == s.answers || (id in r.jobs && r.jobs[id].result.Some? && r.answers == Insert(s.answers, r.jobs[id].result.value))
  {
    if id in s.jobs && s.jobs[id].status == Running then
      var j := s.jobs[id];
      match outcome
      case TimedOut =>
        s.(jobs := s.jobs[id := j.(status := Failed, error := Some(TimeoutMessage))])
      case Answered(answer, confidence) =>
        var rec := ResultOf(j, answer, confidence, at);
        Store(s.jobs[id := j.(status := Done, completedAt := Some(at), result := Some(rec))],
              Insert(s.answers, rec))
    else
      s
  }

  /** One timer firing. */
  function Apply(s: Store, e: Event): (r: Store)
    ensures r.jobs.Keys == s.jobs.Keys
    ensures forall k | k in s.jobs && k != e.id :: r.jobs[k] == s.jobs[k]
    ensures r != s ==> e.id in s.jobs && Rank(r.jobs[e.id].status) == Rank(s.jobs[e.id].status) + 1
  {
    match e
    case QueueTimerFired(id, _) => StartProcessing(s, id)
    case ProcessingTimerFired(id, outcome, at) => FinishProcessing(s, id, outcome, at)
  }

  /** The broadcast an event causes: one exactly when its guard lets it change the job. */
  function Notice(s: Store, e: Event): (r: Option<JobUpdate>)
    ensures r.Some? <==> e.id in s.jobs && s.jobs[e.id].status == (if e.QueueTimerFired? then Queued else Running)
    ensures r.Some? ==> r.value.jobId == s.jobs[e.id].jobId && r.value.timestamp == e.at && r.value.status != Queued
  {
    match e
    case QueueTimerFired(id, at) =>
      if id in s.jobs && s.jobs[id].status == Queued then Some(JobUpdate(s.jobs[id].jobId, Running, at)) else None
    case ProcessingTimerFired(id, outcome, at) =>
      if id in s.jobs && s.jobs[id].status == Running then
        Some(JobUpdate(s.jobs[id].jobId, if outcome.TimedOut? then Failed else Done, at))
      else None
  }

  function ApplyAll(s: Store, es: seq<Event>): Store
    decreases |es|
  {
    if es == [] then s else ApplyAll(Apply(s, es[0]), es[1..])
  }

  /** Every event keeps the store invariant. */
  lemma ApplyPreservesInvariant(s: Store, e: Event)
    requires Invariant(s)
    ensures Invariant(Apply(s, e))
  {
  }

  /**
   * The guard: an event changes at most the job it names, leaves the set of
   * ids alone, and changes that job only from the status it expects
   * (queued for the first timer, running for the second).
   */
  lemma ApplyGuarded(s: Store, e: Event)
    ensures Apply(s, e).jobs.Keys == s.jobs.Keys
    ensures forall id | id in s.jobs && id != e.id :: Apply(s, e).jobs[id] == s.jobs[id]
    ensures e.QueueTimerFired? && !(e.id in s.jobs && s.jobs[e.id].status == Queued) ==> Apply(s, e) == s
    ensures e.ProcessingTimerFired? && !(e.id in s.jobs && s.jobs[e.id].status == Running) ==> Apply(s, e) == s
    ensures e.QueueTimerFired? && e.id in s.jobs && s.jobs[e.id].status == Queued ==>
      Apply(s, e).jobs[e.id] == s.jobs[e.id].(status := Running) && Apply(s, e).answers == s.answers
  {
  }

  /** What the second timer leaves behind on each branch. */
  lemma FinishPayloads(s: Store, id: JobId, outcome: Outcome, at: Time)
    requires id in s.jobs && s.jobs[id].status == Running
    ensures var j := s.jobs[id];
      var t := FinishProcessing(s, id, outcome, at);
      var k := t.jobs[id];
      && (outcome.TimedOut? ==>
            k.status == Failed && k.error == Some(TimeoutMessage)
            && k.result == j.result && k.completedAt == j.completedAt && t.answers == s.answers
            && (Consistent(j) ==> k.result.None? && k.completedAt.None?))
      && (outcome.Answered? ==>
            && k.status == Done && k.completedAt == Some(at) && k.error == j.error
            && k.result == Some(AnswerRecord(j.question, j.company, outcome.answer, outcome.confidence, at))
            && t.answers == Insert(s.answers, k.result.value)
            && (Consistent(j) ==> k.error.None?))
  {
  }

  /**
   * Progress is monotone: a job never moves back, moves at most one step
   * per event, and a done or failed job never changes again.
   */
  lemma ApplyMonotone(s: Store, e: Event, id: JobId)
    requires id in s.jobs
    ensures id in Apply(s, e).jobs
    ensures var before, after := s.jobs[id], Apply(s, e).jobs[id];
      && Rank(before.status) <= Rank(after.status) <= Rank(before.status) + 1
      && (IsTerminal(before.status) ==> after == before)
  {
  }

  /** A broadcast happens exactly when the event changed the job table, and carries the new status. */
  lemma NoticeExactlyOnChange(s: Store, e: Event)
    requires Invariant(s)
    ensures Notice(s, e).Some? <==> Apply(s, e).jobs != s.jobs
    ensures Notice(s, e).Some? ==>
      var u := Notice(s, e).value;
      u.jobId == e.id && e.id in Apply(s, e).jobs && u.status == Apply(s, e).jobs[e.id].status && u.timestamp == e.at
  {
    if Notice(s, e).Some? {
      var t := Apply(s, e);
      assert e.id in t.jobs && t.jobs[e.id].status != s.jobs[e.id].status;
    }
  }

  /** Over any run of timer events, a job's status never goes back and a terminal job is frozen. */
  lemma {:induction false} RunMonotone(s: Store, es: seq<Event>, id: JobId)
    requires id in s.jobs
    ensures id in ApplyAll(s, es).jobs
    ensures Rank(s.jobs[id].status) <= Rank(ApplyAll(s, es).jobs[id].status)
    ensures IsTerminal(s.jobs[id].status) ==> ApplyAll(s, es).jobs[id] == s.jobs[id]
    decreases |es|
  {
    if es != [] {
      ApplyMonotone(s, es[0], id);
      RunMonotone(Apply(s, es[0]), es[1..], id);
    }
  }

  /** Over any run of timer events the invariant holds throughout. */
  lemma {:induction false} RunPreservesInvariant(s: Store, es: seq<Event>)
    requires Invariant(s)
    ensures Invariant(ApplyAll(s, es))
    decreases |es|
  {
    if es != [] {
      ApplyPreservesInvariant(s, es[0]);
      RunPreservesInvariant(Apply(s, es[0]), es[1..]);
    }
  }

  /** A job seen running has been queued: only the first timer makes a job running, and only from queued. */
  lemma RunningComesFromQueued(s: Store, e: Event, id: JobId)
    requires id in s.jobs && s.jobs[id].status != Running
    requires Apply(s, e).jobs[id].status == Running
    ensures s.jobs[id].status == Queued && e == QueueTimerFired(id, e.at)
  {
  }

  /**
   * The normal path of one job: submitted as queued, then the two timers in
   * order; the job ends done with a result naming its question and company,
   * and that result heads the history.
   */
  lemma HappyPath(s: Store, j: Job, answer: string, confidence: real, t1: Time, t2: Time)
    requires Invariant(s) && j.jobId !in s.jobs && j.status == Queued && Consistent(j)
    ensures var s0 := s.(jobs := s.jobs[j.jobId := j]);
      var s2 := ApplyAll(s0, [QueueTimerFired(j.jobId, t1), ProcessingTimerFired(j.jobId, Answered(answer, confidence), t2)]);
      && j.jobId in s2.jobs
      && s2.jobs[j.jobId].status == Done
      && s2.jobs[j.jobId].result == Some(AnswerRecord(j.question, j.company, answer, confidence, t2))
      && s2.answers != [] && s2.answers[0] == s2.jobs[j.jobId].result.value
      && (forall k | k in s.jobs :: k in s2.jobs && s2.jobs[k] == s.jobs[k])
  {
    var s0 := s.(jobs := s.jobs[j.jobId := j]);
    var e1 := QueueTimerFired(j.jobId, t1);
    var e2 := ProcessingTimerFired(j.jobId, Answered(answer, confidence), t2);
    var s1 := Apply(s0, e1);
    assert ApplyAll(s0, [e1, e2]) == ApplyAll(s1, [e2]);
    assert [e1, e2][1..] == [e2];
    assert [e2][1..] == [];
    var s2 := Apply(s1, e2);
    assert ApplyAll(s1, [e2]) == s2;
    InsertFront(s1.answers, s2.jobs[j.jobId].result.value);
  }
}
