/** core/ingest/tasks.py: the chain parse, chunk, embed, index, each task retried on failure
    until the job has failed MAX_ATTEMPTS times. */
module TaskChain {
  import opened Wrappers
  import opened IngestState
  import opened Pipeline
  import opened IngestPipelineObject

  const MAX_ATTEMPTS: nat := 5

  /** Completed: all tasks succeeded. Exhausted: the attempt limit. GaveUp: the retry limit of one
      task. Refused: mark_failed itself raised. Killed: the worker died; a task that cannot even
      build its pipeline ends the chain in the same way, at the resume step, with nothing recorded. */
  datatype ChainOutcome = Completed | Exhausted | GaveUp | Refused | Killed

  datatype ChainEnd = ChainEnd(s: Sys, executions: nat, outcome: ChainOutcome)

  /** The chain from its first unfinished task on; execution number n meets the fault plan(n). */
  function Chain(env: Env, s: Sys, tasks: seq<StageFn>, retries: nat, n: nat, plan: nat -> Fault): ChainEnd
    requires retries <= MAX_ATTEMPTS
    decreases |tasks|, MAX_ATTEMPTS - retries
  {
    if tasks == [] then ChainEnd(s, n, Completed)
    else
      var x := RunFn(env, s, tasks[0], plan(n));
      match x.out
      case Done => Chain(env, x.s, tasks[1..], 0, n + 1, plan)
      case Crashed => ChainEnd(x.s, n + 1, Killed)
      case Raised =>
        var s' := MarkFailed(x.s);
        if MoveRows(x.s, Failed, Some("error")).Failure? then ChainEnd(s', n + 1, Refused)
        else if s'.job.attempt >= MAX_ATTEMPTS then ChainEnd(s', n + 1, Exhausted)
        else if retries >= MAX_ATTEMPTS then ChainEnd(s', n + 1, GaveUp)
        else Chain(env, s', tasks, retries + 1, n + 1, plan)
  }

  lemma StageOfFn(env: Env, s: Sys, f: Fault)
    ensures RunFn(env, s, ParseFn, f) == ParseStage(env, s, f)
    ensures RunFn(env, s, ChunkFn, f) == ChunkStage(env, s, f)
    ensures RunFn(env, s, EmbedFn, f) == EmbedStage(env, s, f)
    ensures RunFn(env, s, IndexFn, f) == IndexStage(env, s, f)
  {
  }

  lemma MarkFailedIs(s: Sys)
    ensures var r := MoveRows(s, Failed, Some("error"));
            MarkFailed(s) == if r.Success? then r.value else s
  {
  }

  /** One execution of a task's stage. */
  method Execute(p: IngestPipeline, fn: StageFn, f: Fault) returns (out: Outcome)
    modifies p
    ensures var x := RunFn(p.env, old(p.State()), fn, f);
            p.State() == x.s && out == x.out
  {
    hide ParseStage, ChunkStage, EmbedStage, IndexStage;
    match fn {
      case ParseFn => out := p.ParseStage(f);
      case ChunkFn => out := p.ChunkStage(f);
      case EmbedFn => out := p.EmbedStage(f);
      case IndexFn => out := p.IndexStage(f);
    }
  }

  lemma ChainStep(env: Env, s: Sys, k: nat, retries: nat, n: nat, plan: nat -> Fault)
    requires k < 4 && retries <= MAX_ATTEMPTS
    ensures var x := RunFn(env, s, STAGES[k], plan(n));
            Chain(env, s, STAGES[k..], retries, n, plan)
            == match x.out
               case Done => Chain(env, x.s, STAGES[k + 1..], 0, n + 1, plan)
               case Crashed => ChainEnd(x.s, n + 1, Killed)
               case Raised =>
                 var r := MoveRows(x.s, Failed, Some("error"));
                 if r.Failure? then ChainEnd(x.s, n + 1, Refused)
                 else if r.value.job.attempt >= MAX_ATTEMPTS then ChainEnd(r.value, n + 1, Exhausted)
                 else if retries >= MAX_ATTEMPTS then ChainEnd(r.value, n + 1, GaveUp)
                 else Chain(env, r.value, STAGES[k..], retries + 1, n + 1, plan)
  {
    hide RunFn, MoveRows, MarkFailed;
    MarkFailedIs(RunFn(env, s, STAGES[k], plan(n)).s);
    assert STAGES[k..][0] == STAGES[k] && STAGES[k..][1..] == STAGES[k + 1..];
  }

  /** The four tasks run one after the other over the pipeline object. */
  method EnqueueIngest(p: IngestPipeline, plan: nat -> Fault) returns (end: ChainEnd)
    modifies p
    ensures end == Chain(p.env, old(p.State()), STAGES, 0, 0, plan) && p.State() == end.s
  {
    hide RunFn, MoveRows, Chain;
    ghost var goal := Chain(p.env, p.State(), STAGES, 0, 0, plan);
    var k, retries, n := 0, 0, 0;
    assert STAGES[0..] == STAGES;
    while k < 4
      invariant 0 <= k <= 4 && retries <= MAX_ATTEMPTS
      invariant Chain(p.env, p.State(), STAGES[k..], retries, n, plan) == goal
      decreases 4 - k, MAX_ATTEMPTS - retries
    {
      ChainStep(p.env, p.State(), k, retries, n, plan);
      var out := Execute(p, STAGES[k], plan(n));
      n := n + 1;
      if out == Done {
        k, retries := k + 1, 0;
      } else if out == Crashed {
        return ChainEnd(p.State(), n, Killed);
      } else {
        var ok := p.CommitTransition(Failed, Some("error"));
        if !ok {
          return ChainEnd(p.State(), n, Refused);
        } else if p.job.attempt >= MAX_ATTEMPTS {
          return ChainEnd(p.State(), n, Exhausted);
        } else if retries >= MAX_ATTEMPTS {
          return ChainEnd(p.State(), n, GaveUp);
        }
        retries := retries + 1;
      }
    }
    ChainNothing(p.env, p.State(), retries, n, plan);
    return ChainEnd(p.State(), n, Completed);
  }

  lemma ChainNothing(env: Env, s: Sys, retries: nat, n: nat, plan: nat -> Fault)
    requires retries <= MAX_ATTEMPTS
    ensures Chain(env, s, STAGES[4..], retries, n, plan) == ChainEnd(s, n, Completed)
  {
  }

  // ---------- how long a chain runs ----------

  lemma ResumeCounts(s: Sys, f: Fault)
    requires JobOk(s.job) && !f.atResume
    ensures Resume(s, f).s.job.stage != Failed && Resume(s, f).s.job.attempt == s.job.attempt
    ensures Resume(s, f).out == Done
  {
  }

  /** Past the resume step a stage leaves the job in some stage other than FAILED, and only
      mark_failed counts. */
  lemma StageCounts(env: Env, s: Sys, fn: StageFn, f: Fault)
    requires JobOk(s.job) && !f.atResume
    ensures RunFn(env, s, fn, f).s.job.stage != Failed && RunFn(env, s, fn, f).s.job.attempt == s.job.attempt
  {
    hide RunFn, Resume, Own;
    ResumeCounts(s, f);
    StageEffect(env, s, fn, f);
  }

  lemma MarkFailedCounts(s: Sys)
    requires s.job.stage != Failed
    ensures MoveRows(s, Failed, Some("error")).Success? ==>
              MarkFailed(s).job.stage == Failed && MarkFailed(s).job.attempt == s.job.attempt + 1
  {
  }

  /** Starting with attempt = a < 5 and m tasks to go, whatever faults strike after the resume
      step, the chain performs at most m + 4 - a task executions, and it is the job's attempt
      limit that stops it, never the retry limit of a task. */
  lemma {:induction false} ChainBound(env: Env, s: Sys, tasks: seq<StageFn>, retries: nat, n: nat, plan: nat -> Fault)
    requires Inv(env, s) && s.job.attempt < MAX_ATTEMPTS && retries <= s.job.attempt
    requires forall m: nat :: !plan(m).atResume
    ensures var end := Chain(env, s, tasks, retries, n, plan);
            && (tasks != [] ==> end.executions - n <= |tasks| + 4 - s.job.attempt)
            && end.outcome != GaveUp
            && Inv(env, end.s)
            && (end.outcome == Exhausted ==> end.s.job.stage == Failed && end.s.job.attempt == MAX_ATTEMPTS)
    decreases |tasks|, MAX_ATTEMPTS - retries
  {
    hide RunFn, Base, Facts, MarkFailed, MoveRows;
    if tasks != [] {
      var x := RunFn(env, s, tasks[0], plan(n));
      StageKeeps(env, s, tasks[0], plan(n));
      StageCounts(env, s, tasks[0], plan(n));
      MarkFailedKeeps(env, x.s);
      MarkFailedCounts(x.s);
      if x.out == Done {
        ChainBound(env, x.s, tasks[1..], 0, n + 1, plan);
      } else if x.out == Raised && MoveRows(x.s, Failed, Some("error")).Success?
                && MarkFailed(x.s).job.attempt < MAX_ATTEMPTS {
        ChainBound(env, MarkFailed(x.s), tasks, retries + 1, n + 1, plan);
      }
    }
  }

  /** The whole chain of a job that has failed a times so far: at most 8 - a executions. */
  lemma FullChainBound(env: Env, s: Sys, plan: nat -> Fault)
    requires Inv(env, s) && s.job.attempt < MAX_ATTEMPTS
    requires forall m: nat :: !plan(m).atResume
    ensures Chain(env, s, STAGES, 0, 0, plan).executions <= 8 - s.job.attempt
  {
    ChainBound(env, s, STAGES, 0, 0, plan);
  }

  /** Whatever the faults, each task is executed at most six times. */
  lemma {:induction false} RetryBound(env: Env, s: Sys, tasks: seq<StageFn>, retries: nat, n: nat, plan: nat -> Fault)
    requires retries <= MAX_ATTEMPTS
    ensures tasks != [] ==> Chain(env, s, tasks, retries, n, plan).executions - n <= 6 * |tasks| - retries
    decreases |tasks|, MAX_ATTEMPTS - retries
  {
    hide RunFn, MarkFailed, MoveRows;
    if tasks != [] {
      var x := RunFn(env, s, tasks[0], plan(n));
      if x.out == Done {
        RetryBound(env, x.s, tasks[1..], 0, n + 1, plan);
      } else if x.out == Raised && retries < MAX_ATTEMPTS {
        RetryBound(env, MarkFailed(x.s), tasks, retries + 1, n + 1, plan);
      }
    }
  }

  /** Failures at the resume step of a failed job are not counted: the attempt limit does not stop
      them, only the retry limit does. */
  lemma {:induction false} ResumeFaultsUncounted(env: Env, s: Sys, tasks: seq<StageFn>, retries: nat, n: nat,
                                                 plan: nat -> Fault)
    requires s.job.stage == Failed && s.job.attempt < MAX_ATTEMPTS && tasks != [] && retries <= MAX_ATTEMPTS
    requires forall m: nat :: plan(m) == Fault(true, -1, false)
    ensures Chain(env, s, tasks, retries, n, plan) == ChainEnd(s, n + 6 - retries, GaveUp)
    decreases MAX_ATTEMPTS - retries
  {
    assert plan(n) == Fault(true, -1, false);
    ResumeFault(env, s, tasks[0], plan(n));
    hide RunFn;
    if retries < MAX_ATTEMPTS {
      ResumeFaultsUncounted(env, s, tasks, retries + 1, n + 1, plan);
    }
  }

  lemma ResumeFault(env: Env, s: Sys, fn: StageFn, f: Fault)
    requires s.job.stage == Failed && f == Fault(true, -1, false)
    ensures RunFn(env, s, fn, f).out == Raised && RunFn(env, s, fn, f).s == s
  {
  }

  // ---------- retries that cannot succeed ----------

  lemma MoveRefused(env: Env, x: Exec, e: nat, to: Stage)
    requires At(env, x, e) && to != Failed && x.s.job.stage != to && !CanTransition(x.s.job.stage, to)
    ensures Move(x, to).out != Done && Move(x, to).s == x.s
  {
  }

  /** The stage a task needs the job to stand at, at least. */
  function Needs(fn: StageFn): nat {
    match fn
    case ParseFn => 0
    case ChunkFn => 1
    case EmbedFn => 2
    case IndexFn => 3
  }

  lemma EmbedTooEarly(env: Env, s: Sys, f: Fault)
    requires Inv(env, s) && JobOk(s.job) && Standing(s) <= 1
    ensures var x := EmbedStage(env, s, f);
            x.out != Done && Inv(env, x.s) && JobOk(x.s.job) && Standing(x.s) <= Standing(s)
  {
    hide Inv, Reembed, Move, Facts;
    Entered(env, s, f);
    EmbedKeeps(env, s, f);
    var a, e := Guard(Resume(s, f)), Standing(s);
    if a.out == Done && a.s.files.chunks.Some? {
      var ids := a.s.files.chunks.value;
      if forall id :: id in ids ==> id in a.s.rows {
        ReembedKeeps(env, a, e, ids);
        MoveRefused(env, Reembed(env, a, ids), e, Embedded);
        StageOf(env, Reembed(env, a, ids).s, e);
      }
    }
  }

  lemma ChunkTooEarly(env: Env, s: Sys, f: Fault)
    requires Inv(env, s) && JobOk(s.job) && Standing(s) == 0
    ensures var x := ChunkStage(env, s, f);
            x.out != Done && Inv(env, x.s) && JobOk(x.s.job) && Standing(x.s) == 0
  {
    hide Inv, Rechunk, Move, Facts;
    Entered(env, s, f);
    ChunkKeeps(env, s, f);
    var a := Guard(Resume(s, f));
    if a.out == Done && a.s.files.text.Some? && Contents(env) != [] {
      RechunkKeeps(env, a, 0);
      MoveRefused(env, Rechunk(env, a, Text(env), Contents(env)), 0, Chunked);
      StageOf(env, Rechunk(env, a, Text(env), Contents(env)).s, 0);
    }
  }

  lemma IndexTooEarly(env: Env, s: Sys, f: Fault)
    requires Inv(env, s) && JobOk(s.job) && Standing(s) <= 2
    ensures var x := IndexStage(env, s, f);
            x.out != Done && Inv(env, x.s) && JobOk(x.s.job) && Standing(x.s) <= Standing(s)
  {
    hide Inv, Upsert, Move, Facts, Own, WithPoints;
    Entered(env, s, f);
    IndexKeeps(env, s, f);
    var a, e := Guard(Resume(s, f)), Standing(s);
    if a.out == Done && a.s.files.chunks.Some? && a.s.files.vecs.Some? {
      var ids, vecs := a.s.files.chunks.value, a.s.files.vecs.value;
      if forall id :: id in ids ==> id in vecs {
        UpsertKeeps(env, a, e, ids, vecs);
        MoveRefused(env, Upsert(a, env, ids, vecs), e, Indexed);
        StageOf(env, Upsert(a, env, ids, vecs).s, e);
      }
    }
  }

  lemma TooEarly(env: Env, s: Sys, fn: StageFn, f: Fault)
    requires Inv(env, s) && JobOk(s.job) && Standing(s) < Needs(fn)
    ensures var x := RunFn(env, s, fn, f);
            x.out != Done && Inv(env, x.s) && JobOk(x.s.job) && Standing(x.s) <= Standing(s)
  {
    hide Inv, ParseStage, ChunkStage, EmbedStage, IndexStage;
    match fn {
      case ParseFn =>
      case ChunkFn => ChunkTooEarly(env, s, f);
      case EmbedFn => EmbedTooEarly(env, s, f);
      case IndexFn => IndexTooEarly(env, s, f);
    }
  }

  /** A task that finds the job too early cannot catch up by retrying: a failed job never resumes ahead
      of where it stood, so whatever happens the chain never completes. */
  lemma {:induction false} RetryNeverCompletes(env: Env, s: Sys, tasks: seq<StageFn>, retries: nat, n: nat,
                                               plan: nat -> Fault)
    requires Inv(env, s) && JobOk(s.job) && tasks != [] && Standing(s) < Needs(tasks[0]) && retries <= MAX_ATTEMPTS
    ensures Chain(env, s, tasks, retries, n, plan).outcome != Completed
    decreases MAX_ATTEMPTS - retries
  {
    hide RunFn, Base, Facts, MarkFailed, MoveRows;
    var x := RunFn(env, s, tasks[0], plan(n));
    TooEarly(env, s, tasks[0], plan(n));
    MarkFailedKeeps(env, x.s);
    if x.out == Raised && retries < MAX_ATTEMPTS {
      RetryNeverCompletes(env, MarkFailed(x.s), tasks, retries + 1, n + 1, plan);
    }
  }

  /** In particular, an embed task that failed while the job was at CHUNKED, and an index task that
      failed while it was at EMBEDDED, are retried in vain. */
  lemma FailedEmbedOrIndexIsFinal(env: Env, s: Sys, fn: StageFn, rest: seq<StageFn>, retries: nat, n: nat,
                                  plan: nat -> Fault)
    requires Inv(env, s) && s.job.stage == Failed && retries <= MAX_ATTEMPTS
    requires (fn == EmbedFn && s.job.failedAt == Some(Chunked)) || (fn == IndexFn && s.job.failedAt == Some(Embedded))
    ensures Chain(env, s, [fn] + rest, retries, n, plan).outcome != Completed
  {
    hide Base, Facts;
    RetryNeverCompletes(env, s, [fn] + rest, retries, n, plan);
  }

  // ---------- chains without faults ----------

  /** Each task can complete where the tasks before it leave the job. */
  ghost predicate CompletesInTurn(env: Env, s: Sys, tasks: seq<StageFn>)
    requires Inv(env, s)
    decreases |tasks|
  {
    FactsOf(env, s);
    tasks == [] || (StageKeeps(env, s, tasks[0], NO_FAULT);
                    CanComplete(env, s, tasks[0])
                    && CompletesInTurn(env, RunFn(env, s, tasks[0], NO_FAULT).s, tasks[1..]))
  }

  lemma IndexFailsAgain(env: Env, s: Sys)
    requires Inv(env, s) && JobOk(s.job) && Standing(s) == 3 && !CanComplete(env, s, IndexFn)
    ensures var x := RunFn(env, s, IndexFn, NO_FAULT);
            x.out == Raised && Inv(env, MarkFailed(x.s)) && JobOk(MarkFailed(x.s).job)
            && !CanComplete(env, MarkFailed(x.s), IndexFn)
  {
    hide Inv, IndexStage, Own, MarkFailed;
    var o :| o in Own(env, s.points) && o !in s.rows;
    StageOfFn(env, s, NO_FAULT);
    IndexClean(env, s);
    OwnIsUsed(env, s, o);
    OrphanStays(env, s, IndexFn, NO_FAULT, o);
    var x := RunFn(env, s, IndexFn, NO_FAULT);
    StageKeeps(env, s, IndexFn, NO_FAULT);
    MarkFailedKeeps(env, x.s);
    FactsOf(env, x.s);
    FactsOf(env, MarkFailed(x.s));
    FallsBack(x.s);
    MarkFailedStores(x.s);
  }

  lemma OwnIsUsed(env: Env, s: Sys, o: nat)
    requires Inv(env, s) && o in Own(env, s.points)
    ensures o < s.next
  {
  }

  lemma FallsBack(s: Sys)
    requires JobOk(s.job) && s.job.stage in {Embedded, Indexed}
    ensures JobOk(MarkFailed(s).job) && Standing(MarkFailed(s)) <= 3
  {
  }

  /** Without faults, a task that cannot complete cannot complete on a retry either. */
  lemma FailsAgain(env: Env, s: Sys, fn: StageFn)
    requires Inv(env, s) && JobOk(s.job) && !CanComplete(env, s, fn)
    ensures var x := RunFn(env, s, fn, NO_FAULT);
            x.out != Done && Inv(env, MarkFailed(x.s)) && JobOk(MarkFailed(x.s).job)
            && !CanComplete(env, MarkFailed(x.s), fn)
  {
    hide RunFn, Base, MarkFailed, Own;
    var x := RunFn(env, s, fn, NO_FAULT);
    StageKeeps(env, s, fn, NO_FAULT);
    MarkFailedKeeps(env, x.s);
    FactsOf(env, MarkFailed(x.s));
    StageCompletesIff(env, s, fn);
    AttemptDone(env, s, fn, NO_FAULT);
    if Standing(s) < Needs(fn) {
      TooEarly(env, s, fn, NO_FAULT);
    } else if fn == IndexFn {
      IndexFailsAgain(env, s);
    }
  }

  lemma {:induction false} NeverCompletes(env: Env, s: Sys, tasks: seq<StageFn>, retries: nat, n: nat,
                                          plan: nat -> Fault)
    requires Inv(env, s) && JobOk(s.job) && tasks != [] && !CanComplete(env, s, tasks[0]) && retries <= MAX_ATTEMPTS
    requires forall m: nat :: m >= n ==> plan(m) == NO_FAULT
    ensures Chain(env, s, tasks, retries, n, plan).outcome != Completed
    decreases MAX_ATTEMPTS - retries
  {
    hide RunFn, Inv, MarkFailed, MoveRows, CanComplete;
    FailsAgain(env, s, tasks[0]);
    if retries < MAX_ATTEMPTS {
      NeverCompletes(env, MarkFailed(RunFn(env, s, tasks[0], NO_FAULT).s), tasks, retries + 1, n + 1, plan);
    }
  }

  /** A chain that meets no fault completes if and only if each task can complete in its turn, and
      then without any retry. */
  lemma {:induction false} FaultFreeChain(env: Env, s: Sys, tasks: seq<StageFn>, retries: nat, n: nat,
                                          plan: nat -> Fault)
    requires Inv(env, s) && retries <= MAX_ATTEMPTS
    requires forall m: nat :: m >= n ==> plan(m) == NO_FAULT
    ensures var end := Chain(env, s, tasks, retries, n, plan);
            && (end.outcome == Completed <==> CompletesInTurn(env, s, tasks))
            && (end.outcome == Completed ==> end.executions == n + |tasks|)
    decreases |tasks|
  {
    hide RunFn, Inv, MarkFailed, MoveRows, CanComplete;
    FactsOf(env, s);
    if tasks != [] {
      StageCompletesIff(env, s, tasks[0]);
      AttemptDone(env, s, tasks[0], NO_FAULT);
      StageKeeps(env, s, tasks[0], NO_FAULT);
      if CanComplete(env, s, tasks[0]) {
        FaultFreeChain(env, RunFn(env, s, tasks[0], NO_FAULT).s, tasks[1..], 0, n + 1, plan);
      } else {
        NeverCompletes(env, s, tasks, retries, n, plan);
      }
    }
  }

  lemma {:induction false} RunInTurn(env: Env, s: Sys, fns: seq<StageFn>, faults: seq<Fault>)
    requires Inv(env, s) && |faults| == |fns| && forall f :: f in faults ==> f == NO_FAULT
    ensures RunFrom(env, s, fns, faults).1 == Done <==> CompletesInTurn(env, s, fns)
    decreases |fns|
  {
    hide RunFn, Inv, CanComplete;
    FactsOf(env, s);
    if fns != [] {
      assert faults[0] in faults && forall f :: f in faults[1..] ==> f in faults;
      StageCompletesIff(env, s, fns[0]);
      AttemptDone(env, s, fns[0], NO_FAULT);
      StageKeeps(env, s, fns[0], NO_FAULT);
      if CanComplete(env, s, fns[0]) {
        RunInTurn(env, RunFn(env, s, fns[0], NO_FAULT).s, fns[1..], faults[1..]);
      }
    }
  }

  /** Without faults the task chain completes exactly when a plain run() does. */
  lemma FaultFreeChainIff(env: Env, s: Sys, plan: nat -> Fault)
    requires Inv(env, s) && forall m: nat :: plan(m) == NO_FAULT
    ensures Chain(env, s, STAGES, 0, 0, plan).outcome == Completed <==> Run(env, s, CALM).1 == Done
  {
    hide RunFrom, Chain, CompletesInTurn, Inv;
    FaultFreeChain(env, s, STAGES, 0, 0, plan);
    RunInTurn(env, s, STAGES, CALM);
  }

  /** A failed chunk task recovers: a job that failed at PARSED resumes there, and if its text gives
      a chunk and its document has no points the rest of the chain completes without a retry. */
  lemma ChunkRetryCompletes(env: Env, s: Sys, retries: nat, n: nat, plan: nat -> Fault)
    requires Inv(env, s) && s.job.stage == Failed && s.job.failedAt == Some(Parsed)
    requires Contents(env) != [] && Own(env, s.points) == {} && retries <= MAX_ATTEMPTS
    requires forall m: nat :: m >= n ==> plan(m) == NO_FAULT
    ensures var end := Chain(env, s, [ChunkFn, EmbedFn, IndexFn], retries, n, plan);
            && end.outcome == Completed && end.executions == n + 3
            && end.s.job.stage == Ready && Exact(env, end.s)
  {
    hide RunFn, Inv, Own, ChunkStage, EmbedStage, IndexStage, Exact;
    FactsOf(env, s);
    StageOfFn(env, s, NO_FAULT);
    ChunkClean(env, s);
    var c := RunFn(env, s, ChunkFn, NO_FAULT).s;
    StageOf(env, c, 2);
    StageOfFn(env, c, NO_FAULT);
    EmbedClean(env, c);
    var e := RunFn(env, c, EmbedFn, NO_FAULT).s;
    StageOf(env, e, 3);
    StageOfFn(env, e, NO_FAULT);
    IndexClean(env, e);
    IndexKeeps(env, e, NO_FAULT);
    ReadyExact(env, RunFn(env, e, IndexFn, NO_FAULT).s);
    assert [ChunkFn, EmbedFn, IndexFn][1..] == [EmbedFn, IndexFn];
    assert [EmbedFn, IndexFn][1..] == [IndexFn] && [IndexFn][1..] == [];
    assert plan(n) == plan(n + 1) == plan(n + 2) == NO_FAULT;
  }

  // ---------- how a chain ends at once ----------

  /** A worker that dies in a task ends the chain there: nothing is recorded and nothing retried. */
  lemma KilledAtOnce(env: Env, s: Sys, tasks: seq<StageFn>, retries: nat, n: nat, plan: nat -> Fault)
    requires tasks != [] && retries <= MAX_ATTEMPTS && RunFn(env, s, tasks[0], plan(n)).out == Crashed
    ensures Chain(env, s, tasks, retries, n, plan)
            == ChainEnd(RunFn(env, s, tasks[0], plan(n)).s, n + 1, Killed)
  {
  }

  /** A task that raises at READY cannot record it: the chain ends with the job as it was. */
  lemma RefusedAtReady(env: Env, s: Sys, tasks: seq<StageFn>, retries: nat, n: nat, plan: nat -> Fault)
    requires Inv(env, s) && s.job.stage == Ready && tasks != [] && retries <= MAX_ATTEMPTS
    requires RunFn(env, s, tasks[0], plan(n)).out == Raised
    ensures Chain(env, s, tasks, retries, n, plan) == ChainEnd(s, n + 1, Refused)
  {
    hide RunFn, Base, Facts;
    ReadyIsFrozen(env, s, tasks[0], plan(n));
    FailureIsRecorded(s.job, Some("error"));
  }

  // ---------- the bound is attained ----------

  const STRIKES_FIRST := Fault(false, 0, false)

  /** A failure that is recorded below the limits is retried with the same tasks to go. */
  lemma ChainRetries(env: Env, s: Sys, tasks: seq<StageFn>, retries: nat, n: nat, plan: nat -> Fault)
    requires tasks != [] && retries < MAX_ATTEMPTS
    requires var x := RunFn(env, s, tasks[0], plan(n));
             && x.out == Raised && MoveRows(x.s, Failed, Some("error")).Success?
             && MarkFailed(x.s).job.attempt < MAX_ATTEMPTS
    ensures Chain(env, s, tasks, retries, n, plan)
            == Chain(env, MarkFailed(RunFn(env, s, tasks[0], plan(n)).s), tasks, retries + 1, n + 1, plan)
  {
    hide RunFn, MarkFailed, MoveRows;
  }

  lemma ChunkStruck(env: Env, s: Sys)
    requires Inv(env, s) && s.job.stage == Parsed
    ensures var x := RunFn(env, s, ChunkFn, STRIKES_FIRST);
            && x.out == Raised && MoveRows(x.s, Failed, Some("error")).Success?
            && var t := MarkFailed(x.s);
               Inv(env, t) && t.job.stage == Failed && t.job.failedAt == Some(Parsed) && t.points == s.points
               && t.job.attempt == s.job.attempt + 1
  {
    hide Base, Facts;
    StageKeeps(env, s, ChunkFn, STRIKES_FIRST);
    MarkFailedKeeps(env, RunFn(env, s, ChunkFn, STRIKES_FIRST).s);
  }

  /** A chunk task that raises once is retried and completes: one execution more than without the
      failure, and the job is READY and exact. */
  lemma ChunkFailsOnce(env: Env, s: Sys, n: nat, plan: nat -> Fault)
    requires Inv(env, s) && s.job.stage == Parsed && s.job.attempt < MAX_ATTEMPTS - 1
    requires Contents(env) != [] && Own(env, s.points) == {}
    requires forall m: nat :: m >= n ==> plan(m) == if m == n then STRIKES_FIRST else NO_FAULT
    ensures var end := Chain(env, s, [ChunkFn, EmbedFn, IndexFn], 0, n, plan);
            && end.outcome == Completed && end.executions == n + 4
            && end.s.job.stage == Ready && Exact(env, end.s)
  {
    hide RunFn, MarkFailed, MoveRows, Inv, Own, Exact, Contents, Chain;
    ChunkStruck(env, s);
    assert plan(n) == STRIKES_FIRST;
    var t := MarkFailed(RunFn(env, s, ChunkFn, STRIKES_FIRST).s);
    ChainRetries(env, s, [ChunkFn, EmbedFn, IndexFn], 0, n, plan);
    ChunkRetryCompletes(env, t, 1, n + 1, plan);
  }

  lemma ParseStruck(env: Env, s: Sys)
    requires Inv(env, s) && JobOk(s.job) && Standing(s) == 0
    ensures var x := RunFn(env, s, ParseFn, STRIKES_FIRST);
            && x.out == Raised && MoveRows(x.s, Failed, Some("error")).Success?
            && var t := MarkFailed(x.s);
               Inv(env, t) && JobOk(t.job) && Standing(t) == 0 && t.job.stage == Failed && t.points == s.points
               && t.job.attempt == s.job.attempt + 1
  {
    hide Base, Facts;
    ResumeKeeps(env, s, STRIKES_FIRST);
    StageKeeps(env, s, ParseFn, STRIKES_FIRST);
    MarkFailedKeeps(env, RunFn(env, s, ParseFn, STRIKES_FIRST).s);
  }

  /** The bound of 8 - a executions is attained: a chain whose first 4 - a parses fail completes
      with its last attempt, from every job at its start whose text gives a chunk and whose
      document has no points. */
  lemma {:induction false} BoundAttained(env: Env, s: Sys, retries: nat, n: nat, plan: nat -> Fault)
    requires Inv(env, s) && JobOk(s.job) && Standing(s) == 0 && Contents(env) != [] && Own(env, s.points) == {}
    requires s.job.attempt < MAX_ATTEMPTS && retries <= s.job.attempt
    requires forall m: nat :: m >= n ==> plan(m) == if m < n + 4 - s.job.attempt then STRIKES_FIRST else NO_FAULT
    ensures Chain(env, s, STAGES, retries, n, plan).outcome == Completed
    ensures Chain(env, s, STAGES, retries, n, plan).executions == n + 8 - s.job.attempt
    decreases MAX_ATTEMPTS - s.job.attempt
  {
    hide RunFn, MarkFailed, MoveRows, Base, Facts, Own;
    if s.job.attempt == 4 {
      FaultFreeChain(env, s, STAGES, retries, n, plan);
      RecoversIff(env, s);
      RunInTurn(env, s, STAGES, CALM);
    } else {
      ParseStruck(env, s);
      assert plan(n) == STRIKES_FIRST;
      BoundAttained(env, MarkFailed(RunFn(env, s, ParseFn, STRIKES_FIRST).s), retries + 1, n + 1, plan);
    }
  }
}
