/** core/ingest/pipeline.py: which states of a job can still lead to READY, by any sequence of
    stages and faults. */
module Outlook {
  import opened Wrappers
  import opened IngestState
  import opened Pipeline
  import opened TaskChain

  // ---------- joining histories ----------

  lemma {:induction false} HistoryConcat(env: Env, s: Sys, a: seq<Event>, b: seq<Event>)
    ensures History(env, s, a + b) == History(env, History(env, s, a), b)
    decreases |b|
  {
    hide Attempt;
    if b == [] {
      assert a + b == a;
    } else {
      HistoryConcat(env, s, a, b[..|b| - 1]);
      assert (a + b)[..|a + b| - 1] == a + b[..|b| - 1];
    }
  }

  const CALM_EVENTS := [Event(ParseFn, NO_FAULT), Event(ChunkFn, NO_FAULT),
                        Event(EmbedFn, NO_FAULT), Event(IndexFn, NO_FAULT)]

  lemma HistoryOne(env: Env, s: Sys, e: Event)
    ensures History(env, s, [e]) == Attempt(env, s, e.fn, e.fault).0
  {
    hide Attempt;
    assert [e][..0] == [];
  }

  /** A run that completes is the history of its four stages. */
  lemma CompletedRunIsHistory(env: Env, s: Sys)
    ensures Run(env, s, CALM).1 == Done ==> History(env, s, CALM_EVENTS) == Run(env, s, CALM).0
  {
    hide Attempt, Run, History;
    RunUnfolds(env, s);
    var p := Attempt(env, s, ParseFn, NO_FAULT);
    var c := Attempt(env, p.0, ChunkFn, NO_FAULT);
    var e := Attempt(env, c.0, EmbedFn, NO_FAULT);
    var E := CALM_EVENTS;
    HistoryOne(env, s, E[0]);
    HistoryOne(env, p.0, E[1]);
    HistoryOne(env, c.0, E[2]);
    HistoryOne(env, e.0, E[3]);
    HistoryConcat(env, s, [E[0]], [E[1]]);
    HistoryConcat(env, s, [E[0]] + [E[1]], [E[2]]);
    HistoryConcat(env, s, [E[0]] + [E[1]] + [E[2]], [E[3]]);
    assert E == [E[0]] + [E[1]] + [E[2]] + [E[3]];
  }

  // ---------- points of the document never go away ----------

  lemma OwnStays(env: Env, s: Sys, fn: StageFn, f: Fault, o: nat)
    requires o in Own(env, s.points)
    ensures o in Own(env, RunFn(env, s, fn, f).s.points)
  {
    hide RunFn, Resume, Own;
    ResumeShape(s, f);
    StageEffect(env, s, fn, f);
  }

  // ---------- a doomed job stays doomed ----------

  /** A point of the document that no run can account for: its chunk is gone, or the chunks will be
      made anew. */
  ghost predicate Doomed(env: Env, s: Sys, o: nat) {
    && Inv(env, s) && JobOk(s.job)
    && o in Own(env, s.points) && (Standing(s) <= 1 || o !in s.rows)
  }

  lemma NewRowsAreNew(next: nat, contents: seq<string>, o: nat)
    requires o < next
    ensures o !in NewRows(next, contents)
  {
  }

  lemma ParseEarly(env: Env, s: Sys, f: Fault)
    requires Inv(env, s) && JobOk(s.job) && Standing(s) <= 1
    ensures var x := ParseStage(env, s, f);
            Inv(env, x.s) && JobOk(x.s.job) && Standing(x.s) <= 1
  {
    hide Base, Facts, Move;
    Entered(env, s, f);
    ParseKeeps(env, s, f);
    var a := Guard(Resume(s, f));
    if a.out == Done {
      MoveShape(StampText(SaveText(a, env.parse(env.source)), env.source), Parsed);
    }
  }

  lemma ChunkReplaces(env: Env, s: Sys, f: Fault, o: nat)
    requires Inv(env, s) && JobOk(s.job) && Standing(s) <= 1 && o in Own(env, s.points)
    ensures var x := ChunkStage(env, s, f);
            Inv(env, x.s) && JobOk(x.s.job) && (Standing(x.s) <= 1 || o !in x.s.rows)
  {
    hide Inv, Facts, Lists, Rechunk, Move, Own;
    Entered(env, s, f);
    ChunkKeeps(env, s, f);
    FactsOf(env, ChunkStage(env, s, f).s);
    var a, e := Guard(Resume(s, f)), Standing(s);
    if a.out == Done && a.s.files.text.Some? && Contents(env) != [] {
      OwnIsUsed(env, a.s, o);
      NewRowsAreNew(a.s.next, Contents(env), o);
      RechunkKeeps(env, a, e);
      var d := Rechunk(env, a, Text(env), Contents(env));
      if e == 0 {
        MoveRefused(env, d, e, Chunked);
        StageOf(env, d.s, e);
      } else {
        MoveShape(d, Chunked);
        StageOf(env, d.s, e);
      }
    }
  }

  lemma DoomedStage(env: Env, s: Sys, fn: StageFn, f: Fault, o: nat)
    requires Doomed(env, s, o)
    ensures Doomed(env, RunFn(env, s, fn, f).s, o)
  {
    hide Inv, ParseStage, ChunkStage, EmbedStage, IndexStage, Own;
    StageKeeps(env, s, fn, f);
    FactsOf(env, RunFn(env, s, fn, f).s);
    OwnStays(env, s, fn, f, o);
    if Standing(s) <= 1 {
      match fn {
        case ParseFn => ParseEarly(env, s, f);
        case ChunkFn => ChunkReplaces(env, s, f, o);
        case EmbedFn => TooEarly(env, s, fn, f);
        case IndexFn => TooEarly(env, s, fn, f);
      }
    } else {
      OwnIsUsed(env, s, o);
      OrphanStays(env, s, fn, f, o);
    }
  }

  /** The error handler keeps a job doomed: it only moves the job back. */
  lemma DoomedFailure(env: Env, s: Sys, o: nat)
    requires Doomed(env, s, o)
    ensures Doomed(env, MarkFailed(s), o)
  {
    hide Inv, Own, MarkFailed;
    MarkFailedKeeps(env, s);
    MarkFailedStores(s);
    FactsOf(env, MarkFailed(s));
  }

  lemma {:induction false} DoomedForever(env: Env, s: Sys, events: seq<Event>, o: nat)
    requires Doomed(env, s, o)
    ensures Doomed(env, History(env, s, events), o)
    decreases |events|
  {
    hide Doomed, RunFn, MarkFailed;
    if events != [] {
      var t, e := History(env, s, events[..|events| - 1]), events[|events| - 1];
      DoomedForever(env, s, events[..|events| - 1], o);
      DoomedStage(env, t, e.fn, e.fault, o);
      DoomedFailure(env, RunFn(env, t, e.fn, e.fault).s, o);
    }
  }

  lemma DoomedIsNotReady(env: Env, s: Sys, o: nat)
    requires Doomed(env, s, o)
    ensures s.job.stage != Ready
  {
    if s.job.stage == Ready {
      ReadyExact(env, s);
    }
  }

  // ---------- which jobs can still be brought to READY ----------

  /** The text gives a chunk, and the store holds no points of the document other than those of the
      chunks that will be kept: the present ones from CHUNKED on, none before. */
  ghost predicate Promising(env: Env, s: Sys)
    requires JobOk(s.job)
  {
    Contents(env) != [] && Own(env, s.points) <= if Standing(s) >= 2 then s.rows.Keys else {}
  }

  /** A worker that raises while it reads the job, before it has done anything. */
  const NUDGE := Event(ParseFn, Fault(true, -1, false))

  lemma Nudged(env: Env, s: Sys)
    requires Inv(env, s) && s.job.stage == Indexed && JobOk(s.job) && Promising(env, s)
    ensures var t := History(env, s, [NUDGE]);
            Inv(env, t) && JobOk(t.job) && Recoverable(env, t)
  {
    hide Own, Base, Facts;
    HistoryOne(env, s, NUDGE);
    MarkFailedKeeps(env, s);
    MarkFailedStores(s);
  }

  lemma RecoverableIsReachable(env: Env, s: Sys)
    requires Inv(env, s) && JobOk(s.job) && Recoverable(env, s)
    ensures History(env, s, CALM_EVENTS).job.stage == Ready
  {
    hide Run, History, Inv, Recoverable;
    RecoversIff(env, s);
    CompletedRunIsHistory(env, s);
  }

  lemma Unpromising(env: Env, s: Sys, events: seq<Event>)
    requires Inv(env, s) && JobOk(s.job) && !Promising(env, s)
    ensures History(env, s, events).job.stage != Ready
  {
    hide History, Own, Inv, Exact;
    HistoryKeeps(env, s, events);
    if History(env, s, events).job.stage == Ready {
      FactsOf(env, History(env, s, events));
      assert Contents(env) != [];
      var o :| o in Own(env, s.points) && o !in if Standing(s) >= 2 then s.rows.Keys else {};
      DoomedForever(env, s, events, o);
      DoomedIsNotReady(env, History(env, s, events), o);
    }
  }

  /** From every reachable state, some sequence of stages and faults brings the job to READY if and
      only if it is promising. Nothing but that can be mended: a job that is not promising, such as
      one whose chunks are made anew after some of their points were written, never becomes READY. */
  lemma CanBecomeReadyIff(env: Env, s: Sys)
    requires Inv(env, s)
    ensures JobOk(s.job)
    ensures (exists events :: History(env, s, events).job.stage == Ready) <==> Promising(env, s)
  {
    hide History, Own, Inv, Run;
    FactsOf(env, s);
    if !Promising(env, s) {
      forall events ensures History(env, s, events).job.stage != Ready {
        Unpromising(env, s, events);
      }
    } else if s.job.stage == Indexed {
      Nudged(env, s);
      RecoverableIsReachable(env, History(env, s, [NUDGE]));
      HistoryConcat(env, s, [NUDGE], CALM_EVENTS);
      assert History(env, s, [NUDGE] + CALM_EVENTS).job.stage == Ready;
    } else {
      RecoverableIsReachable(env, s);
    }
  }

  lemma EmbedStruck(env: Env, s: Sys)
    requires s.job.stage == Failed && s.job.failedAt == Some(Embedded)
    ensures var b := Attempt(env, s, EmbedFn, STRIKES_FIRST).0;
            b.job.stage == Failed && b.job.failedAt == Some(Chunked) && b.points == s.points
  {
  }

  /** A failure of the embed task after a failed index task is enough: once a point has been
      written, the job then never becomes READY, whatever happens later. */
  lemma EmbedFailureDooms(env: Env, s: Sys, events: seq<Event>)
    requires Inv(env, s) && s.job.stage == Failed && s.job.failedAt == Some(Embedded) && Own(env, s.points) != {}
    ensures History(env, s, [Event(EmbedFn, STRIKES_FIRST)] + events).job.stage != Ready
  {
    hide Attempt, Own, Base, Facts;
    var e := Event(EmbedFn, STRIKES_FIRST);
    EmbedStruck(env, s);
    AttemptKeeps(env, s, EmbedFn, STRIKES_FIRST);
    HistoryOne(env, s, e);
    HistoryConcat(env, s, [e], events);
    Unpromising(env, Attempt(env, s, EmbedFn, STRIKES_FIRST).0, events);
  }

  lemma IndexStruck(env: Env, s: Sys)
    requires s.job.stage == Embedded
    ensures var a := Attempt(env, s, IndexFn, STRIKES_FIRST).0;
            a.job.stage == Failed && a.job.failedAt == Some(Embedded) && a.points == s.points
  {
  }

  /** The same from a job at EMBEDDED that has points: two failures in a row. */
  lemma TwoFailuresDoom(env: Env, s: Sys, events: seq<Event>)
    requires Inv(env, s) && s.job.stage == Embedded && Own(env, s.points) != {}
    ensures History(env, s, [Event(IndexFn, STRIKES_FIRST)] + ([Event(EmbedFn, STRIKES_FIRST)] + events)).job.stage
            != Ready
  {
    hide Attempt, Own, Inv;
    var i := Event(IndexFn, STRIKES_FIRST);
    IndexStruck(env, s);
    AttemptKeeps(env, s, IndexFn, STRIKES_FIRST);
    HistoryOne(env, s, i);
    HistoryConcat(env, s, [i], [Event(EmbedFn, STRIKES_FIRST)] + events);
    EmbedFailureDooms(env, Attempt(env, s, IndexFn, STRIKES_FIRST).0, events);
  }

  // ---------- a new job gets there ----------

  /** The first three stages, and an index stage that raises after its first step. */
  const BROKEN_INDEX := [Event(ParseFn, NO_FAULT), Event(ChunkFn, NO_FAULT), Event(EmbedFn, NO_FAULT),
                         Event(IndexFn, Fault(false, 2, false))]

  lemma HistoryFour(env: Env, s: Sys, e0: Event, e1: Event, e2: Event, e3: Event)
    ensures History(env, s, [e0, e1, e2, e3])
            == Attempt(env, Attempt(env, Attempt(env, Attempt(env, s, e0.fn, e0.fault).0, e1.fn, e1.fault).0,
                                    e2.fn, e2.fault).0, e3.fn, e3.fault).0
  {
    hide Attempt;
    HistoryOne(env, s, e0);
    HistoryConcat(env, s, [e0], [e1]);
    HistoryConcat(env, s, [e0] + [e1], [e2]);
    HistoryConcat(env, s, [e0] + [e1] + [e2], [e3]);
    HistoryOne(env, History(env, s, [e0]), e1);
    HistoryOne(env, History(env, s, [e0] + [e1]), e2);
    HistoryOne(env, History(env, s, [e0] + [e1] + [e2]), e3);
    assert [e0, e1, e2, e3] == [e0] + [e1] + [e2] + [e3];
  }

  lemma {:induction false} UpsertStruck(env: Env, x: Exec, ids: seq<nat>, vecs: map<nat, Vec>)
    requires x.out == Done && x.fuse == 1 && !x.crash && ids != [] && forall id :: id in ids ==> id in vecs
    ensures var y := Upsert(x, env, ids, vecs);
            ids[0] in Own(env, y.s.points) && (y.out == Raised || (y.out == Done && y.fuse == 0)) && !y.crash
    decreases |ids|
  {
    if |ids| > 1 {
      UpsertStruck(env, x, ids[..|ids| - 1], vecs);
    } else {
      assert ids[..0] == [];
    }
  }

  lemma IndexBreaks(env: Env, s: Sys)
    requires Inv(env, s) && s.job.stage == Embedded
    ensures var (t, out) := Attempt(env, s, IndexFn, Fault(false, 2, false));
            out == Raised && t.job.stage == Failed && t.job.failedAt == Some(Embedded) && Own(env, t.points) != {}
  {
    hide Upsert, Own, Base;
    var a := Guard(Resume(s, Fault(false, 2, false)));
    VecsCurrent(env, s);
    ChunksCurrent(env, s);
    var ids, vecs := s.files.chunks.value, s.files.vecs.value;
    UpsertStruck(env, a, ids, vecs);
    UpsertShape(env, a, ids, vecs);
    assert ids[0] in Own(env, Upsert(a, env, ids, vecs).s.points);
  }

  lemma ThreeStages(env: Env, s0: Sys)
    requires Init(s0) && Contents(env) != []
    ensures var p := Attempt(env, s0, ParseFn, NO_FAULT);
            var c := Attempt(env, p.0, ChunkFn, NO_FAULT);
            var e := Attempt(env, c.0, EmbedFn, NO_FAULT);
            p.1 == c.1 == e.1 == Done && Inv(env, e.0) && e.0.job.stage == Embedded && e.0.points == s0.points
  {
    hide Inv, ParseStage, ChunkStage, EmbedStage, IndexStage, MarkFailed;
    InitInv(env, s0);
    ParseClean(env, s0);
    var p := Attempt(env, s0, ParseFn, NO_FAULT).0;
    StageOf(env, p, 1);
    ChunkClean(env, p);
    var c := Attempt(env, p, ChunkFn, NO_FAULT).0;
    StageOf(env, c, 2);
    EmbedClean(env, c);
  }

  lemma {:induction false} UpsertTakes(env: Env, x: Exec, ids: seq<nat>, vecs: map<nat, Vec>)
    requires x.out == Done && x.fuse >= |ids| && forall id :: id in ids ==> id in vecs
    ensures var y := Upsert(x, env, ids, vecs);
            y.out == Done && y.fuse == x.fuse - |ids| && y.crash == x.crash
    decreases |ids|
  {
    if ids != [] {
      UpsertTakes(env, x, ids[..|ids| - 1], vecs);
    }
  }

  /** The kill after the points and the transition to INDEXED. */
  function KillAtIndexed(n: nat): Fault {
    Fault(false, n + 2, true)
  }

  lemma IndexKilled(env: Env, s: Sys)
    requires Inv(env, s) && s.job.stage == Embedded
    ensures var (t, out) := Attempt(env, s, IndexFn, KillAtIndexed(|Contents(env)|));
            out == Crashed && t.job.stage == Indexed
  {
    hide Upsert, Own, Base;
    var a := Guard(Resume(s, KillAtIndexed(|Contents(env)|)));
    VecsCurrent(env, s);
    ChunksCurrent(env, s);
    var ids, vecs := s.files.chunks.value, s.files.vecs.value;
    UpsertTakes(env, a, ids, vecs);
    UpsertShape(env, a, ids, vecs);
  }

  const THREE_STAGES := [Event(ParseFn, NO_FAULT), Event(ChunkFn, NO_FAULT), Event(EmbedFn, NO_FAULT)]

  /** From a new job whose text gives a chunk, a kill right after INDEXED is recorded leads to a state
      from which a run returns at once and leaves the job where it is. */
  lemma NewJobStuckAtIndexed(env: Env, s0: Sys)
    requires Init(s0) && Contents(env) != []
    ensures var s := History(env, s0, THREE_STAGES + [Event(IndexFn, KillAtIndexed(|Contents(env)|))]);
            Inv(env, s) && s.job.stage == Indexed && Run(env, s, CALM) == (s, Done)
  {
    hide Inv, Attempt, Run, Contents;
    var kill := Event(IndexFn, KillAtIndexed(|Contents(env)|));
    assert THREE_STAGES + [kill] == [THREE_STAGES[0], THREE_STAGES[1], THREE_STAGES[2], kill];
    HistoryFour(env, s0, THREE_STAGES[0], THREE_STAGES[1], THREE_STAGES[2], kill);
    ThreeStages(env, s0);
    var c := Attempt(env, Attempt(env, s0, ParseFn, NO_FAULT).0, ChunkFn, NO_FAULT).0;
    var e := Attempt(env, c, EmbedFn, NO_FAULT).0;
    IndexKilled(env, e);
    AttemptKeeps(env, e, IndexFn, kill.fault);
    RunFromIndexed(env, Attempt(env, e, IndexFn, kill.fault).0);
  }

  /** From a new job whose text gives a chunk, an index stage that raises after its first write
      leaves the job FAILED at EMBEDDED with a point of its own. */
  lemma NewJobBreaks(env: Env, s0: Sys)
    requires Init(s0) && Contents(env) != []
    ensures var s := History(env, s0, BROKEN_INDEX);
            Inv(env, s) && s.job.stage == Failed && s.job.failedAt == Some(Embedded) && Own(env, s.points) != {}
  {
    hide Inv, Attempt, Own;
    HistoryFour(env, s0, BROKEN_INDEX[0], BROKEN_INDEX[1], BROKEN_INDEX[2], BROKEN_INDEX[3]);
    ThreeStages(env, s0);
    var c := Attempt(env, Attempt(env, s0, ParseFn, NO_FAULT).0, ChunkFn, NO_FAULT).0;
    var e := Attempt(env, c, EmbedFn, NO_FAULT).0;
    IndexBreaks(env, e);
    AttemptKeeps(env, e, IndexFn, Fault(false, 2, false));
  }

  /** So two failures in a row, of the index stage and then of the embed stage, make any new job
      whose text gives a chunk unfinishable. */
  lemma NewJobDoomed(env: Env, s0: Sys, events: seq<Event>)
    requires Init(s0) && Contents(env) != []
    ensures History(env, s0, BROKEN_INDEX + ([Event(EmbedFn, STRIKES_FIRST)] + events)).job.stage != Ready
  {
    hide Inv, Own, History;
    NewJobBreaks(env, s0);
    HistoryConcat(env, s0, BROKEN_INDEX, [Event(EmbedFn, STRIKES_FIRST)] + events);
    EmbedFailureDooms(env, History(env, s0, BROKEN_INDEX), events);
  }

  /** And making the chunks anew after that leaves a point whose chunk is gone. */
  lemma NewJobOrphans(env: Env, s0: Sys)
    requires Init(s0) && Contents(env) != []
    ensures var s := History(env, s0, BROKEN_INDEX + [Event(EmbedFn, STRIKES_FIRST), Event(ChunkFn, NO_FAULT)]);
            exists o :: Orphan(env, s, o)
  {
    hide Inv, Attempt, Own, History;
    var e, c := Event(EmbedFn, STRIKES_FIRST), Event(ChunkFn, NO_FAULT);
    NewJobBreaks(env, s0);
    var s := History(env, s0, BROKEN_INDEX);
    HistoryConcat(env, s0, BROKEN_INDEX, [e, c]);
    HistoryConcat(env, s, [e], [c]);
    assert [e] + [c] == [e, c];
    HistoryOne(env, s, e);
    EmbedStruck(env, s);
    AttemptKeeps(env, s, EmbedFn, STRIKES_FIRST);
    var t := Attempt(env, s, EmbedFn, STRIKES_FIRST).0;
    HistoryOne(env, t, c);
    RechunkOrphans(env, t);
  }

  /** Making the chunks anew while the document has points orphans them all. */
  lemma RechunkOrphans(env: Env, s: Sys)
    requires Inv(env, s) && s.job.stage == Failed && s.job.failedAt == Some(Chunked) && Contents(env) != []
    requires Own(env, s.points) != {}
    ensures exists o :: Orphan(env, Attempt(env, s, ChunkFn, NO_FAULT).0, o)
  {
    hide Own, Base, Facts, ChunkStage;
    ChunkClean(env, s);
    AttemptDone(env, s, ChunkFn, NO_FAULT);
    RunChunk(env, s, NO_FAULT);
    OwnAmong(env, s.points);
    var o :| o in Own(env, s.points);
    OwnIsUsed(env, ChunkStage(env, s, NO_FAULT).s, o);
    assert Orphan(env, Attempt(env, s, ChunkFn, NO_FAULT).0, o);
  }

  /** The chain of any new job whose text gives a chunk never completes once its index task raises
      after the first write, whatever the retries meet. */
  lemma NewChainLost(env: Env, s0: Sys, plan: nat -> Fault)
    requires Init(s0) && Contents(env) != []
    requires plan(0) == plan(1) == plan(2) == NO_FAULT && plan(3) == Fault(false, 2, false)
    ensures Chain(env, s0, STAGES, 0, 0, plan).outcome != Completed
  {
    hide Inv, RunFn, Chain, MoveRows, MarkFailed, Attempt, Own, History;
    NewJobBreaks(env, s0);
    HistoryFour(env, s0, BROKEN_INDEX[0], BROKEN_INDEX[1], BROKEN_INDEX[2], BROKEN_INDEX[3]);
    ThreeStages(env, s0);
    var p := RunFn(env, s0, ParseFn, NO_FAULT).s;
    var c := RunFn(env, p, ChunkFn, NO_FAULT).s;
    var e := RunFn(env, c, EmbedFn, NO_FAULT).s;
    AttemptDone(env, s0, ParseFn, NO_FAULT);
    AttemptDone(env, p, ChunkFn, NO_FAULT);
    AttemptDone(env, c, EmbedFn, NO_FAULT);
    AttemptDone(env, e, IndexFn, plan(3));
    var x := RunFn(env, e, IndexFn, plan(3));
    assert STAGES[0..] == STAGES && STAGES[3..] == [IndexFn] + [];
    ChainStep(env, s0, 0, 0, 0, plan);
    ChainStep(env, p, 1, 0, 1, plan);
    ChainStep(env, c, 2, 0, 2, plan);
    ChainStep(env, e, 3, 0, 3, plan);
    IndexBreaks(env, e);
    MarkFailedIs(x.s);
    FailedEmbedOrIndexIsFinal(env, MarkFailed(x.s), IndexFn, [], 1, 4, plan);
  }
}
