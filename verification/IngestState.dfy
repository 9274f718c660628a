/** core/ingest/state.py and Registry.transition_job of core/storage/registry.py: the job
    state machine and the job row it is recorded in. */
module IngestState {
  import opened Wrappers

  datatype Stage = Uploaded | Parsed | Chunked | Embedded | Indexed | Ready | Failed

  predicate CanTransition(frm: Stage, to: Stage) {
    match frm
    case Uploaded => to in {Parsed, Failed}
    case Parsed => to in {Chunked, Failed}
    case Chunked => to in {Embedded, Failed}
    case Embedded => to in {Indexed, Failed}
    case Indexed => to in {Ready, Failed}
    case Ready => false
    case Failed => to in {Uploaded, Parsed, Chunked, Embedded, Indexed}
  }

  /** The stage to go on from after a failure; None where the table has no entry. */
  function RetryFrom(stage: Stage): Option<Stage> {
    match stage
    case Uploaded => Some(Uploaded)
    case Parsed => Some(Parsed)
    case Chunked => Some(Parsed)
    case Embedded => Some(Chunked)
    case Indexed => Some(Embedded)
    case Ready => None
    case Failed => Some(Uploaded)
  }

  /** Position in the order of the stages; FAILED is not in it. */
  function Order(s: Stage): nat
    requires !s.Failed?
  {
    match s
    case Uploaded => 0
    case Parsed => 1
    case Chunked => 2
    case Embedded => 3
    case Indexed => 4
    case Ready => 5
  }

  predicate StageReached(current: Stage, target: Stage)
    requires !target.Failed?
  {
    if current == Ready then true
    else if current == Failed then false
    else Order(current) >= Order(target)
  }

  datatype Job = Job(stage: Stage, attempt: nat, failedAt: Option<Stage>, error: Option<string>)

  const NEW_JOB := Job(Uploaded, 0, None, None)

  /** transition_job: the row after the commit, or IllegalTransitionError. */
  function Transition(j: Job, to: Stage, error: Option<string>): Result<Job, string> {
    if j.stage == to then Success(j)
    else if !CanTransition(j.stage, to) then Failure("illegal transition")
    else if to == Failed then Success(Job(Failed, j.attempt + 1, Some(j.stage), error))
    else if j.stage == Failed then Success(j.(stage := to, error := None))
    else Success(j.(stage := to))
  }

  // ---------- any sequence of transition requests ----------

  datatype Request = Request(to: Stage, error: Option<string>)

  function Apply(j: Job, r: Request): Job {
    match Transition(j, r.to, r.error)
    case Success(j') => j'
    case Failure(_) => j
  }

  /** The job after a sequence of requests, of which the illegal ones are rejected. */
  function JobRun(requests: seq<Request>): Job {
    if requests == [] then NEW_JOB
    else Apply(JobRun(requests[..|requests| - 1]), requests[|requests| - 1])
  }

  /** How often the run enters FAILED from another stage. */
  function Entries(requests: seq<Request>): nat {
    if requests == [] then 0
    else
      var init := requests[..|requests| - 1];
      Entries(init) + if JobRun(init).stage != Failed && JobRun(requests).stage == Failed then 1 else 0
  }

  /** A failed job knows a stage it can resume from, and only a failed job carries an error. */
  predicate JobOk(j: Job) {
    && (j.stage == Failed ==> j.failedAt.Some? && j.failedAt.value !in {Ready, Failed})
    && (j.stage != Failed ==> j.error.None?)
  }

  /** Where the job stands, or will stand once it resumes. */
  function Effective(j: Job): Stage
    requires JobOk(j)
    ensures !Effective(j).Failed?
  {
    if j.stage == Failed then RetryFrom(j.failedAt.value).value else j.stage
  }

  /** Over any sequence of requests: the job can always resume, `attempt` counts the failures. */
  lemma {:induction false} JobStaysOk(requests: seq<Request>)
    ensures JobOk(JobRun(requests))
    ensures JobRun(requests).attempt == Entries(requests)
    decreases |requests|
  {
    if requests != [] {
      JobStaysOk(requests[..|requests| - 1]);
    }
  }

  /** The table in terms of the order: a stage is left for the next one; for FAILED from any stage
      but READY; and from FAILED for any stage but READY. */
  lemma TransitionTable(frm: Stage, to: Stage)
    ensures CanTransition(frm, to) <==>
              || (!frm.Failed? && !to.Failed? && Order(to) == Order(frm) + 1)
              || (to.Failed? && !frm.Failed? && !frm.Ready?)
              || (frm.Failed? && !to.Failed? && !to.Ready?)
  {
  }

  /** The order is the one in which a run passes the stages. */
  lemma OrderIsTheRun(s: Stage, t: Stage)
    requires !s.Failed? && !t.Failed?
    ensures Order(Uploaded) <= Order(s) <= Order(Ready)
    ensures Order(s) == Order(t) ==> s == t
    ensures StageReached(s, t) <==> Order(t) <= Order(s)
    ensures !StageReached(Failed, t)
  {
  }

  /** Resuming a failed job never raises. It lands at the stage the job had reached when it failed
      if that is UPLOADED or PARSED and exactly one stage before it otherwise; it clears the error
      and keeps the count. */
  lemma ResumeIsLegal(requests: seq<Request>)
    requires JobRun(requests).stage == Failed
    ensures var j := JobRun(requests);
            && j.failedAt.Some? && RetryFrom(j.failedAt.value).Some?
            && var at, to := j.failedAt.value, RetryFrom(j.failedAt.value).value;
               && !at.Failed? && !to.Failed?
               && (at in {Uploaded, Parsed} ==> to == at)
               && (at !in {Uploaded, Parsed} ==> Order(to) + 1 == Order(at))
               && Transition(j, to, None) == Success(Job(to, j.attempt, j.failedAt, None))
  {
    JobStaysOk(requests);
  }

  /** A request to fail is refused exactly at READY; elsewhere it records its error and the stage
      it struck, and counts one failure. A job that is FAILED already keeps its first error. */
  lemma FailureIsRecorded(j: Job, error: Option<string>)
    ensures match Transition(j, Failed, error)
            case Failure(_) => j.stage == Ready
            case Success(j') =>
              && j.stage != Ready && j'.stage == Failed
              && (j.stage == Failed ==> j' == j)
              && (j.stage != Failed ==>
                    j'.error == error && j'.failedAt == Some(j.stage) && j'.attempt == j.attempt + 1)
  {
  }

  lemma {:induction false} EntriesGrow(requests: seq<Request>, later: seq<Request>)
    ensures Entries(requests) <= Entries(requests + later)
    decreases |later|
  {
    if later == [] {
      assert requests + later == requests;
    } else {
      EntriesGrow(requests, later[..|later| - 1]);
      assert (requests + later)[..|requests + later| - 1] == requests + later[..|later| - 1];
    }
  }

  /** Until the next failure, `failed_at` holds the stage the job was at when it last failed. */
  lemma {:induction false} FailedAtIsLast(requests: seq<Request>, r: Request, later: seq<Request>)
    requires JobRun(requests).stage != Failed && JobRun(requests + [r]).stage == Failed
    requires Entries(requests + [r] + later) == Entries(requests + [r])
    ensures JobRun(requests + [r] + later).failedAt == Some(JobRun(requests).stage)
    decreases |later|
  {
    if later == [] {
      assert (requests + [r])[..|requests|] == requests;
      assert requests + [r] + later == requests + [r];
    } else {
      var init := later[..|later| - 1];
      EntriesGrow(requests + [r], init);
      assert (requests + [r] + later)[..|requests + [r] + later| - 1] == requests + [r] + init;
      FailedAtIsLast(requests, r, init);
    }
  }

  /** READY is absorbing: no later request changes anything about the job. */
  lemma {:induction false} ReadyIsFinal(requests: seq<Request>, later: seq<Request>)
    requires JobRun(requests).stage == Ready
    ensures JobRun(requests + later) == JobRun(requests)
    decreases |later|
  {
    if later == [] {
      assert requests + later == requests;
    } else {
      var init := later[..|later| - 1];
      ReadyIsFinal(requests, init);
      assert (requests + later)[..|requests + later| - 1] == requests + init;
    }
  }

  /** A stage is only ever left for the next one, for FAILED, or from FAILED by resuming; and a
      job that fails and resumes has not moved ahead. */
  lemma NoStageIsSkipped(requests: seq<Request>, r: Request)
    ensures var j, j' := JobRun(requests), Apply(JobRun(requests), r);
            && (j.stage != Failed && j'.stage != Failed ==> Order(j.stage) <= Order(j'.stage) <= Order(j.stage) + 1)
            && (j'.stage == Failed ==> JobOk(j) && JobOk(j') && Order(Effective(j')) <= Order(Effective(j)))
  {
    JobStaysOk(requests);
    JobStaysOk(requests + [r]);
    assert (requests + [r])[..|requests|] == requests;
  }
}
