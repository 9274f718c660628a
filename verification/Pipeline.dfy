/** core/ingest/pipeline.py: the four ingest stages over the job row, the artifact files with
    their hash stamps, the chunk rows and the vector store. Every file write, commit and point
    write is one atomic step, and a fault may strike before any of them. */
module Pipeline {
  import opened Wrappers
  import opened IngestState

  type Vec = seq<real>

  /** What is fixed for a job: its source and the functions applied to it. The embedder maps each
      text on its own. */
  datatype Env = Env(source: string, parse: string -> string, chunk: string -> seq<string>,
                     embed: string -> Vec, kb: string, doc: string)

  datatype Point = Point(vec: Vec, kb: string, doc: string)

  /** The job directory. A stamp holds the content it was hashed from: the hash is injective. */
  datatype Files = Files(text: Option<string>, textStamp: Option<string>,
                         chunks: Option<seq<nat>>, chunksStamp: Option<string>,
                         vecs: Option<map<nat, Vec>>, vecsStamp: Option<seq<nat>>)

  datatype DocRow = DocRow(status: Stage, error: Option<string>)

  /** Everything that survives a crash. `next` is the next unused chunk id. */
  datatype Sys = Sys(job: Job, doc: DocRow, files: Files, rows: map<nat, string>, points: map<nat, Point>, next: nat)

  /** A fault strikes at the resume step, or after `fuse` further steps (never, if negative); it
      kills the process or raises. */
  datatype Fault = Fault(atResume: bool, fuse: int, crash: bool)

  const NO_FAULT := Fault(false, -1, false)

  datatype Outcome = Done | Raised | Crashed

  datatype Exec = Exec(s: Sys, fuse: int, crash: bool, out: Outcome)

  datatype StageFn = ParseFn | ChunkFn | EmbedFn | IndexFn

  // ---------- atomic steps ----------

  function Struck(crash: bool): Outcome {
    if crash then Crashed else Raised
  }

  /** The fault strikes here or the stage goes on. */
  function Guard(x: Exec): Exec {
    if x.out != Done then x
    else if x.fuse == 0 then x.(out := Struck(x.crash))
    else x.(fuse := x.fuse - 1)
  }

  function Raise(x: Exec): Exec {
    if x.out != Done then x else x.(out := Raised)
  }

  /** transition_job on both rows; an illegal transition raises. */
  function MoveRows(s: Sys, to: Stage, error: Option<string>): Result<Sys, string> {
    match Transition(s.job, to, error)
    case Failure(e) => Failure(e)
    case Success(j) =>
      if j == s.job then Success(s)
      else
        var docError := if to == Failed then error else if s.job.stage == Failed then None else s.doc.error;
        Success(s.(job := j, doc := DocRow(to, docError)))
  }

  function Move(x: Exec, to: Stage): Exec {
    var g := Guard(x);
    if g.out != Done then g
    else match MoveRows(g.s, to, None)
      case Failure(_) => g.(out := Raised)
      case Success(s) => g.(s := s)
  }

  function WithFiles(s: Sys, f: Files): Sys {
    s.(files := f)
  }

  function SaveText(x: Exec, t: string): Exec {
    var g := Guard(x);
    if g.out != Done then g else g.(s := WithFiles(g.s, g.s.files.(text := Some(t))))
  }

  function StampText(x: Exec, source: string): Exec {
    var g := Guard(x);
    if g.out != Done then g else g.(s := WithFiles(g.s, g.s.files.(textStamp := Some(source))))
  }

  /** Fresh ids for n new rows. */
  function FreshIds(next: nat, n: nat): seq<nat> {
    seq(n, i => next + i)
  }

  function NewRows(next: nat, contents: seq<string>): (rows: map<nat, string>)
    ensures forall id :: id in rows <==> next <= id < next + |contents|
    ensures forall id :: id in rows ==> rows[id] == contents[id - next]
  {
    if contents == [] then map[]
    else
      var n := |contents| - 1;
      NewRows(next, contents[..n])[next + n := contents[n]]
  }

  /** set_chunks: the document's rows are replaced in one commit, which also marks it ready. */
  function SetChunks(x: Exec, contents: seq<string>): Exec {
    var g := Guard(x);
    if g.out != Done then g
    else g.(s := g.s.(rows := NewRows(g.s.next, contents), next := g.s.next + |contents|, doc := DocRow(Ready, None)))
  }

  function SaveChunks(x: Exec, ids: seq<nat>): Exec {
    var g := Guard(x);
    if g.out != Done then g else g.(s := WithFiles(g.s, g.s.files.(chunks := Some(ids))))
  }

  function StampChunks(x: Exec, text: string): Exec {
    var g := Guard(x);
    if g.out != Done then g else g.(s := WithFiles(g.s, g.s.files.(chunksStamp := Some(text))))
  }

  function SaveVecs(x: Exec, vecs: map<nat, Vec>): Exec {
    var g := Guard(x);
    if g.out != Done then g else g.(s := WithFiles(g.s, g.s.files.(vecs := Some(vecs))))
  }

  function StampVecs(x: Exec, ids: seq<nat>): Exec {
    var g := Guard(x);
    if g.out != Done then g else g.(s := WithFiles(g.s, g.s.files.(vecsStamp := Some(ids))))
  }

  function PutPoint(x: Exec, id: nat, p: Point): Exec {
    var g := Guard(x);
    if g.out != Done then g else g.(s := g.s.(points := g.s.points[id := p]))
  }

  /** upsert, point by point. */
  function Upsert(x: Exec, env: Env, ids: seq<nat>, vecs: map<nat, Vec>): Exec
    requires forall id :: id in ids ==> id in vecs
  {
    if ids == [] then x
    else
      var last := ids[|ids| - 1];
      PutPoint(Upsert(x, env, ids[..|ids| - 1], vecs), last, Point(vecs[last], env.kb, env.doc))
  }

  // ---------- the stages ----------

  /** The start of a stage: a failed job goes back to the stage it can be retried from. */
  function Resume(s: Sys, f: Fault): Exec {
    if f.atResume then Exec(s, f.fuse, f.crash, Struck(f.crash))
    else if s.job.stage != Failed then Exec(s, f.fuse, f.crash, Done)
    else
      var failedAt := if s.job.failedAt.Some? then s.job.failedAt.value else Uploaded;
      match RetryFrom(failedAt)
      case None => Exec(s, f.fuse, f.crash, Raised)
      case Some(to) =>
        match MoveRows(s, to, None)
        case Failure(_) => Exec(s, f.fuse, f.crash, Raised)
        case Success(s') => Exec(s', f.fuse, f.crash, Done)
  }

  /** _stale; None when the upstream file cannot be read. */
  function Stale<A, U(==)>(artifact: Option<A>, stamp: Option<U>, upstream: Option<U>): Option<bool> {
    if artifact.None? || stamp.None? then Some(true)
    else if upstream.None? then None
    else Some(stamp != upstream)
  }

  /** Whether a stage is skipped: it was reached and its artifact is up to date. */
  function Skips(reached: bool, stale: Option<bool>): Option<bool> {
    if !reached then Some(false)
    else if stale.None? then None
    else Some(!stale.value)
  }

  function ParseStage(env: Env, s: Sys, f: Fault): Exec {
    var a := Guard(Resume(s, f));
    if a.out != Done then a
    else match Skips(StageReached(a.s.job.stage, Parsed), Stale(a.s.files.text, a.s.files.textStamp, Some(env.source)))
      case None => Raise(a)
      case Some(true) => a
      case Some(false) =>
        Guard(Move(StampText(SaveText(a, env.parse(env.source)), env.source), Parsed))
  }

  /** The writing part of the chunk stage. */
  function Rechunk(env: Env, a: Exec, text: string, contents: seq<string>): Exec {
    StampChunks(SaveChunks(SetChunks(a, contents), FreshIds(a.s.next, |contents|)), text)
  }

  function ChunkStage(env: Env, s: Sys, f: Fault): Exec {
    var a := Guard(Resume(s, f));
    if a.out != Done then a
    else match Skips(StageReached(a.s.job.stage, Chunked),
                     Stale(a.s.files.chunks, a.s.files.chunksStamp, a.s.files.text))
      case None => Raise(a)
      case Some(true) => a
      case Some(false) =>
        if a.s.files.text.None? then Raise(a)
        else
          var text := a.s.files.text.value;
          var contents := env.chunk(text);
          if contents == [] then Raise(a)
          else
            Guard(Move(Rechunk(env, a, text, contents), Chunked))
  }

  function EmbedRows(env: Env, rows: map<nat, string>, ids: seq<nat>): map<nat, Vec>
    requires forall id :: id in ids ==> id in rows
  {
    map id | id in ids :: env.embed(rows[id])
  }

  /** The writing part of the embed stage. */
  function Reembed(env: Env, a: Exec, ids: seq<nat>): Exec
    requires forall id :: id in ids ==> id in a.s.rows
  {
    StampVecs(SaveVecs(a, EmbedRows(env, a.s.rows, ids)), ids)
  }

  function EmbedStage(env: Env, s: Sys, f: Fault): Exec {
    var a := Guard(Resume(s, f));
    if a.out != Done then a
    else match Skips(StageReached(a.s.job.stage, Embedded),
                     Stale(a.s.files.vecs, a.s.files.vecsStamp, a.s.files.chunks))
      case None => Raise(a)
      case Some(true) => a
      case Some(false) =>
        if a.s.files.chunks.None? then Raise(a)
        else
          var ids := a.s.files.chunks.value;
          if exists id :: id in ids && id !in a.s.rows then Raise(a)
          else
            Guard(Move(Reembed(env, a, ids), Embedded))
  }

  /** count: the points of this document. */
  function Own(env: Env, points: map<nat, Point>): set<nat> {
    set id | id in points && points[id].kb == env.kb && points[id].doc == env.doc
  }

  /** The reconciliation after INDEXED is recorded. */
  function Reconcile(env: Env, b: Exec, n: nat): Exec {
    if b.out != Done then b
    else if |Own(env, b.s.points)| != n then Raise(b)
    else Guard(Move(b, Ready))
  }

  function IndexStage(env: Env, s: Sys, f: Fault): Exec {
    var a := Guard(Resume(s, f));
    if a.out != Done then a
    else if StageReached(a.s.job.stage, Indexed) then a
    else if a.s.files.chunks.None? || a.s.files.vecs.None? then Raise(a)
    else
      var ids, vecs := a.s.files.chunks.value, a.s.files.vecs.value;
      if exists id :: id in ids && id !in vecs then Raise(a)
      else
        Reconcile(env, Guard(Move(Upsert(a, env, ids, vecs), Indexed)), |ids|)
  }

  function RunFn(env: Env, s: Sys, fn: StageFn, f: Fault): Exec {
    match fn
    case ParseFn => ParseStage(env, s, f)
    case ChunkFn => ChunkStage(env, s, f)
    case EmbedFn => EmbedStage(env, s, f)
    case IndexFn => IndexStage(env, s, f)
  }

  /** mark_failed; from READY the transition is illegal and nothing changes. */
  function MarkFailed(s: Sys): Sys {
    match MoveRows(s, Failed, Some("error"))
    case Success(s') => s'
    case Failure(_) => s
  }

  /** One stage with its error handler. */
  function Attempt(env: Env, s: Sys, fn: StageFn, f: Fault): (Sys, Outcome) {
    var x := RunFn(env, s, fn, f);
    (if x.out == Raised then MarkFailed(x.s) else x.s, x.out)
  }

  function RunFrom(env: Env, s: Sys, fns: seq<StageFn>, faults: seq<Fault>): (Sys, Outcome)
    requires |faults| == |fns|
    decreases |fns|
  {
    if fns == [] then (s, Done)
    else
      var r := Attempt(env, s, fns[0], faults[0]);
      if r.1 == Done then RunFrom(env, r.0, fns[1..], faults[1..]) else r
  }

  const STAGES := [ParseFn, ChunkFn, EmbedFn, IndexFn]

  /** run: the four stages in order; the first failure ends it. */
  function Run(env: Env, s: Sys, faults: seq<Fault>): (Sys, Outcome)
    requires |faults| == 4
  {
    RunFrom(env, s, STAGES, faults)
  }

  // ---------- what a stage may change ----------

  /** A transition changes the two rows and nothing else; a refused one changes nothing. */
  lemma MoveShape(x: Exec, to: Stage)
    requires to != Failed
    ensures var y := Move(x, to);
            && y.s == x.s.(job := y.s.job, doc := y.s.doc)
            && (y.s == x.s || (y.out == Done && y.s.doc.status == y.s.job.stage == to
                               && y.s.job.attempt == x.s.job.attempt && CanTransition(x.s.job.stage, to)))
            && (y.out == Done ==> x.out == Done && y.s.job.stage == to)
            && (x.out != Done ==> y == x)
            && (x.s.job.stage != Failed && y.s != x.s ==>
                  y.s.job == x.s.job.(stage := to) && y.s.doc == DocRow(to, x.s.doc.error))
  {
  }

  /** The upsert changes points only, and only to points of the document. */
  lemma {:induction false} UpsertShape(env: Env, x: Exec, ids: seq<nat>, vecs: map<nat, Vec>)
    requires forall id :: id in ids ==> id in vecs
    ensures var y := Upsert(x, env, ids, vecs);
            && y.s == x.s.(points := y.s.points)
            && Own(env, x.s.points) <= Own(env, y.s.points)
            && (y.out == Done ==> x.out == Done)
            && (Calm(x) ==> Calm(y))
    decreases |ids|
  {
    if ids != [] {
      UpsertShape(env, x, ids[..|ids| - 1], vecs);
    }
  }

  /** Nothing has struck and nothing will. */
  ghost predicate Calm(x: Exec) {
    x.out == Done && x.fuse < 0
  }

  lemma RechunkShape(env: Env, a: Exec, text: string, contents: seq<string>)
    ensures var d := Rechunk(env, a, text, contents);
            && d.s.points == a.s.points && d.s.job == a.s.job && a.s.next <= d.s.next
            && (d.s.rows == a.s.rows || forall id :: id in d.s.rows ==> a.s.next <= id)
            && (d.out == Done ==> a.out == Done)
  {
  }

  lemma ReembedShape(env: Env, a: Exec, ids: seq<nat>)
    requires forall id :: id in ids ==> id in a.s.rows
    ensures var d := Reembed(env, a, ids);
            && d.s == WithFiles(a.s, d.s.files) && (d.out == Done ==> a.out == Done)
  {
    hide EmbedRows;
  }

  lemma ReparseShape(a: Exec, text: string, source: string)
    ensures var d := StampText(SaveText(a, text), source);
            && d.s == WithFiles(a.s, d.s.files) && (d.out == Done ==> a.out == Done)
  {
  }

  ghost predicate Agrees(s: Sys) {
    s.doc.status == s.job.stage
  }

  /** The stage a completed execution has reached. */
  function Target(fn: StageFn): Stage {
    match fn
    case ParseFn => Parsed
    case ChunkFn => Chunked
    case EmbedFn => Embedded
    case IndexFn => Indexed
  }

  /** What every stage leaves behind: the document's points only grow; the rows are the old ones or
      all new; no attempt is counted; a completed stage has reached its target; and only the chunk
      stage may set the two rows apart. */
  ghost predicate Effect(env: Env, fn: StageFn, a: Sys, x: Exec) {
    && Own(env, a.points) <= Own(env, x.s.points) && a.next <= x.s.next
    && (x.s.rows == a.rows || (fn == ChunkFn && forall id :: id in x.s.rows ==> a.next <= id))
    && x.s.job.attempt == a.job.attempt && (a.job.stage != Failed ==> x.s.job.stage != Failed)
    && (x.out == Done ==> StageReached(x.s.job.stage, Target(fn)))
    && (fn != ChunkFn && Agrees(a) ==> Agrees(x.s))
  }

  lemma ParseEffect(env: Env, s: Sys, f: Fault)
    ensures Effect(env, ParseFn, Guard(Resume(s, f)).s, ParseStage(env, s, f))
  {
    hide Move, Resume, Own;
    var a := Guard(Resume(s, f));
    ReparseShape(a, env.parse(env.source), env.source);
    MoveShape(StampText(SaveText(a, env.parse(env.source)), env.source), Parsed);
  }

  lemma ChunkEffect(env: Env, s: Sys, f: Fault)
    ensures Effect(env, ChunkFn, Guard(Resume(s, f)).s, ChunkStage(env, s, f))
  {
    hide Move, Resume, Own, Rechunk;
    var a := Guard(Resume(s, f));
    if a.s.files.text.Some? {
      var text := a.s.files.text.value;
      RechunkShape(env, a, text, env.chunk(text));
      MoveShape(Rechunk(env, a, text, env.chunk(text)), Chunked);
    }
  }

  lemma EmbedEffect(env: Env, s: Sys, f: Fault)
    ensures Effect(env, EmbedFn, Guard(Resume(s, f)).s, EmbedStage(env, s, f))
  {
    hide Move, Resume, Own, Reembed;
    var a := Guard(Resume(s, f));
    if a.s.files.chunks.Some? && forall id :: id in a.s.files.chunks.value ==> id in a.s.rows {
      ReembedShape(env, a, a.s.files.chunks.value);
      MoveShape(Reembed(env, a, a.s.files.chunks.value), Embedded);
    }
  }

  lemma IndexEffect(env: Env, s: Sys, f: Fault)
    ensures Effect(env, IndexFn, Guard(Resume(s, f)).s, IndexStage(env, s, f))
  {
    hide Move, Resume, Own, Upsert;
    var a := Guard(Resume(s, f));
    if a.s.files.chunks.Some? && a.s.files.vecs.Some? {
      var ids, vecs := a.s.files.chunks.value, a.s.files.vecs.value;
      if forall id :: id in ids ==> id in vecs {
        UpsertShape(env, a, ids, vecs);
        MoveShape(Upsert(a, env, ids, vecs), Indexed);
        MoveShape(Guard(Move(Upsert(a, env, ids, vecs), Indexed)), Ready);
      }
    }
  }

  lemma StageEffect(env: Env, s: Sys, fn: StageFn, f: Fault)
    ensures Effect(env, fn, Guard(Resume(s, f)).s, RunFn(env, s, fn, f))
  {
    hide Effect, ParseStage, ChunkStage, EmbedStage, IndexStage;
    match fn {
      case ParseFn => ParseEffect(env, s, f);
      case ChunkFn => ChunkEffect(env, s, f);
      case EmbedFn => EmbedEffect(env, s, f);
      case IndexFn => IndexEffect(env, s, f);
    }
  }

  /** The resume step changes the two rows only. */
  lemma ResumeShape(s: Sys, f: Fault)
    ensures var x := Resume(s, f);
            && x.s == s.(job := x.s.job, doc := x.s.doc) && x.s.job.attempt == s.job.attempt
            && (Agrees(s) ==> Agrees(x.s)) && x.fuse == f.fuse && x.crash == f.crash
            && (x.out == Crashed <==> f.atResume && f.crash)
  {
  }

  // ---------- what every step keeps ----------

  ghost function Text(env: Env): string {
    env.parse(env.source)
  }

  ghost function Contents(env: Env): seq<string> {
    env.chunk(Text(env))
  }

  ghost predicate Distinct(ids: seq<nat>) {
    forall i, j :: 0 <= i < j < |ids| ==> ids[i] != ids[j]
  }

  /** `ids` are the row ids of the chunks of the parsed source, in order. */
  ghost predicate Lists(env: Env, rows: map<nat, string>, ids: seq<nat>) {
    && |ids| == |Contents(env)| && Distinct(ids)
    && (forall i :: 0 <= i < |ids| ==> ids[i] in rows && rows[ids[i]] == Contents(env)[i])
    && (forall id :: id in rows ==> id in ids)
  }

  /** Artifacts and stamps only ever hold what belongs to this source. */
  ghost predicate FilesOk(env: Env, s: Sys) {
    && (s.files.text.Some? ==> s.files.text.value == Text(env))
    && (s.files.textStamp.Some? ==> s.files.textStamp.value == env.source)
    && (s.files.chunksStamp.Some? ==> s.files.chunksStamp.value == Text(env))
  }

  /** No id in use is handed out again. */
  ghost predicate IdsUsed(s: Sys) {
    && (forall id :: id in s.rows ==> id < s.next)
    && (forall id :: id in s.points ==> id < s.next)
    && (s.files.chunks.Some? ==> forall id :: id in s.files.chunks.value ==> id < s.next)
    && (s.files.vecs.Some? ==> forall id :: id in s.files.vecs.value ==> id < s.next)
  }

  ghost predicate VecsOk(env: Env, rows: map<nat, string>, vecs: map<nat, Vec>) {
    forall id :: id in rows && id in vecs ==> vecs[id] == env.embed(rows[id])
  }

  ghost predicate PointsOk(env: Env, rows: map<nat, string>, points: map<nat, Point>) {
    forall id :: id in rows && id in points ==> points[id] == Point(env.embed(rows[id]), env.kb, env.doc)
  }

  /** The document row shows the job's stage, except that set_chunks shows READY early. */
  ghost predicate DocOk(s: Sys) {
    && (s.doc.status == s.job.stage || (s.doc.status == Ready && s.job.stage in {Uploaded, Parsed}))
    && s.doc.error == s.job.error
  }

  ghost predicate Base(env: Env, s: Sys) {
    && FilesOk(env, s) && IdsUsed(s)
    && (s.files.vecs.Some? ==> VecsOk(env, s.rows, s.files.vecs.value))
    && PointsOk(env, s.rows, s.points)
  }

  /** What is on disk and in the stores once stage number e is reached. */
  ghost predicate Facts(env: Env, s: Sys, e: nat) {
    && (e >= 1 ==> s.files.text.Some? && s.files.textStamp.Some?)
    && (e >= 2 ==> Contents(env) != [] && s.files.chunksStamp.Some? && s.files.chunks.Some?
                   && Lists(env, s.rows, s.files.chunks.value))
    && (e >= 3 ==> s.files.vecs.Some? && s.files.vecs.value.Keys == s.rows.Keys && s.files.vecsStamp == s.files.chunks)
    && (e >= 4 ==> forall id :: id in s.rows ==> id in s.points)
    && (e >= 5 ==> Own(env, s.points) == s.rows.Keys)
  }

  ghost function Standing(s: Sys): nat
    requires JobOk(s.job)
  {
    Order(Effective(s.job))
  }

  ghost predicate Inv(env: Env, s: Sys) {
    JobOk(s.job) && DocOk(s) && Base(env, s) && Facts(env, s, Standing(s))
  }

  /** A new job: nothing done yet, and points left in the store by whatever came before. */
  ghost predicate Init(s: Sys) {
    && s.job == NEW_JOB && s.doc == DocRow(Uploaded, None)
    && s.files == Files(None, None, None, None, None, None) && s.rows == map[]
    && forall id :: id in s.points ==> id < s.next
  }

  lemma InitInv(env: Env, s: Sys)
    requires Init(s)
    ensures Inv(env, s)
  {
  }

  lemma FactsWeaken(env: Env, s: Sys, e: nat, e': nat)
    requires Facts(env, s, e) && e' <= e
    ensures Facts(env, s, e')
  {
  }

  lemma ResumeKeeps(env: Env, s: Sys, f: Fault)
    requires Inv(env, s)
    ensures var x := Resume(s, f);
            && Inv(env, x.s) && Standing(x.s) == Standing(s) && x.fuse == f.fuse && x.crash == f.crash
            && (x.out == Done ==> x.s.job.stage == Effective(s.job))
            && (x.out == Done <==> !f.atResume)
            && x.s.files == s.files && x.s.rows == s.rows && x.s.points == s.points
  {
    hide Base, Facts;
    if s.job.stage == Failed && !f.atResume {
      assert Base(env, Resume(s, f).s) && Facts(env, Resume(s, f).s, Standing(s)) by {
        SameStores(env, s, Resume(s, f).s);
      }
    }
  }

  /** The two predicates about files and stores do not depend on the job and document rows. */
  lemma SameStores(env: Env, s: Sys, s': Sys)
    requires s'.files == s.files && s'.rows == s.rows && s'.points == s.points && s'.next == s.next
    ensures Base(env, s') == Base(env, s)
    ensures forall e: nat :: Facts(env, s', e) == Facts(env, s, e)
  {
  }

  lemma MarkFailedKeeps(env: Env, s: Sys)
    requires Inv(env, s)
    ensures Inv(env, MarkFailed(s))
    ensures Standing(MarkFailed(s)) <= Standing(s)
    ensures s.job.stage == Ready ==> MarkFailed(s) == s
  {
    hide Base, Facts;
    SameStores(env, s, MarkFailed(s));
    FactsWeaken(env, s, Standing(s), Standing(MarkFailed(s)));
  }

  /** A stage in progress: the invariant holds and the job stands at stage number e. */
  ghost predicate At(env: Env, x: Exec, e: nat) {
    Inv(env, x.s) && x.s.job.stage != Failed && Order(x.s.job.stage) == e
  }

  lemma Entered(env: Env, s: Sys, f: Fault)
    requires Inv(env, s)
    ensures var a := Guard(Resume(s, f));
            && JobOk(s.job) && Inv(env, a.s) && JobOk(a.s.job) && Standing(a.s) == Standing(s)
            && (a.out == Done ==> At(env, a, Standing(s)))
            && a.s.files == s.files && a.s.rows == s.rows && a.s.points == s.points
            && (s.files.text.Some? ==> s.files.text.value == Text(env))
            && (f == NO_FAULT ==> a.out == Done && a.fuse < 0)
  {
    hide Facts, IdsUsed, VecsOk, PointsOk;
    ResumeKeeps(env, s, f);
  }

  lemma MoveKeeps(env: Env, x: Exec, e: nat, to: Stage)
    requires At(env, x, e) && to != Failed
    requires x.out == Done && CanTransition(x.s.job.stage, to) ==> Facts(env, x.s, Order(to))
    ensures Inv(env, Move(x, to).s) && Move(x, to).s.job.stage != Failed
    ensures Move(x, to).out == Done ==> At(env, Move(x, to), Order(to))
    ensures Move(x, to).s.files == x.s.files && Move(x, to).s.rows == x.s.rows && Move(x, to).s.points == x.s.points
  {
    hide Base, Facts, Move, CanTransition;
    MoveShape(x, to);
    SameStores(env, x.s, Move(x, to).s);
  }

  lemma SaveTextKeeps(env: Env, x: Exec, e: nat)
    requires At(env, x, e)
    ensures At(env, SaveText(x, Text(env)), e)
    ensures SaveText(x, Text(env)).out == Done ==> SaveText(x, Text(env)).s.files.text.Some?
  {
  }

  lemma StampTextKeeps(env: Env, x: Exec, e: nat)
    requires At(env, x, e)
    ensures At(env, StampText(x, env.source), e)
    ensures StampText(x, env.source).out == Done ==>
              x.out == Done && StampText(x, env.source).s == WithFiles(x.s, x.s.files.(textStamp := Some(env.source)))
  {
  }

  lemma ParseKeeps(env: Env, s: Sys, f: Fault)
    requires Inv(env, s)
    ensures Inv(env, ParseStage(env, s, f).s)
  {
    hide Base, Move;
    Entered(env, s, f);
    var a, e := Guard(Resume(s, f)), Standing(s);
    if a.out == Done {
      if e == 0 {
        SaveTextKeeps(env, a, e);
        var b := SaveText(a, Text(env));
        StampTextKeeps(env, b, e);
        var c := StampText(b, env.source);
        assert c.out == Done ==> Facts(env, c.s, 1);
        MoveKeeps(env, c, e, Parsed);
      } else {
        TextCurrent(env, s);
      }
    }
  }

  lemma TextCurrent(env: Env, s: Sys)
    requires Inv(env, s) && JobOk(s.job) && Standing(s) >= 1
    ensures s.files.text == Some(Text(env)) && s.files.textStamp == Some(env.source)
  {
  }

  lemma ChunksCurrent(env: Env, s: Sys)
    requires Inv(env, s) && JobOk(s.job) && Standing(s) >= 2
    ensures s.files.text == Some(Text(env)) && s.files.chunksStamp == Some(Text(env)) && s.files.chunks.Some?
    ensures Lists(env, s.rows, s.files.chunks.value) && Contents(env) != []
  {
  }

  lemma VecsCurrent(env: Env, s: Sys)
    requires Inv(env, s) && JobOk(s.job) && Standing(s) >= 3
    ensures s.files.chunks.Some? && s.files.vecs.Some? && s.files.vecsStamp == s.files.chunks
    ensures s.files.vecs.value.Keys == s.rows.Keys
  {
  }

  lemma FreshIdsList(env: Env, next: nat)
    ensures Lists(env, NewRows(next, Contents(env)), FreshIds(next, |Contents(env)|))
  {
    var ids := FreshIds(next, |Contents(env)|);
    forall id | id in NewRows(next, Contents(env)) ensures id in ids {
      assert ids[id - next] == id;
    }
  }

  lemma SetChunksKeeps(env: Env, x: Exec, e: nat)
    requires At(env, x, e) && e <= 1
    ensures var y := SetChunks(x, Contents(env));
            && At(env, y, e) && y.s.files == x.s.files && y.s.points == x.s.points
            && (y.out == Done ==> x.out == Done && y.s.next == x.s.next + |Contents(env)|
                                  && y.s.rows == NewRows(x.s.next, Contents(env)))
  {
  }

  lemma SaveChunksKeeps(env: Env, x: Exec, e: nat, ids: seq<nat>)
    requires At(env, x, e) && e <= 1 && (x.out == Done ==> forall id :: id in ids ==> id < x.s.next)
    ensures var y := SaveChunks(x, ids);
            && At(env, y, e) && y.s.rows == x.s.rows && y.s.points == x.s.points
            && (y.out == Done ==> x.out == Done && y.s.files == x.s.files.(chunks := Some(ids)))
  {
  }

  lemma StampChunksKeeps(env: Env, x: Exec, e: nat)
    requires At(env, x, e)
    ensures var y := StampChunks(x, Text(env));
            && At(env, y, e) && y.s.rows == x.s.rows && y.s.points == x.s.points
            && (y.out == Done ==> x.out == Done && y.s.files == x.s.files.(chunksStamp := Some(Text(env))))
  {
  }

  lemma RechunkKeeps(env: Env, a: Exec, e: nat)
    requires At(env, a, e) && e <= 1 && Contents(env) != []
    ensures var d := Rechunk(env, a, Text(env), Contents(env));
            At(env, d, e) && d.s.points == a.s.points
            && (d.out == Done && e == 1 ==> Facts(env, d.s, 2) && d.s.rows == NewRows(a.s.next, Contents(env)))
  {
    hide Inv, Lists, NewRows;
    var ids := FreshIds(a.s.next, |Contents(env)|);
    SetChunksKeeps(env, a, e);
    var b := SetChunks(a, Contents(env));
    SaveChunksKeeps(env, b, e, ids);
    StampChunksKeeps(env, SaveChunks(b, ids), e);
    FreshIdsList(env, a.s.next);
    if e == 1 {
      FactsOf(env, a.s);
    }
  }

  lemma FactsOf(env: Env, s: Sys)
    requires Inv(env, s)
    ensures JobOk(s.job) && Facts(env, s, Standing(s))
  {
  }

  lemma ChunkKeeps(env: Env, s: Sys, f: Fault)
    requires Inv(env, s)
    ensures Inv(env, ChunkStage(env, s, f).s)
  {
    hide Inv, Facts, Lists, Rechunk, Move;
    Entered(env, s, f);
    var a, e := Guard(Resume(s, f)), Standing(s);
    if a.out == Done {
      if e >= 2 {
        ChunksCurrent(env, s);
      } else if a.s.files.text.Some? && Contents(env) != [] {
        RechunkKeeps(env, a, e);
        MoveKeeps(env, Rechunk(env, a, Text(env), Contents(env)), e, Chunked);
      }
    }
  }

  lemma SaveVecsKeeps(env: Env, x: Exec, e: nat, ids: seq<nat>)
    requires At(env, x, e) && e <= 2 && x.out == Done && x.s.files.chunks == Some(ids)
    requires forall id :: id in ids ==> id in x.s.rows
    ensures var y := SaveVecs(x, EmbedRows(env, x.s.rows, ids));
            && At(env, y, e) && y.s.rows == x.s.rows && y.s.points == x.s.points
            && (y.out == Done ==> y.s.files == x.s.files.(vecs := Some(EmbedRows(env, x.s.rows, ids))))
  {
  }

  lemma StampVecsKeeps(env: Env, x: Exec, e: nat, ids: seq<nat>)
    requires At(env, x, e) && e <= 2
    ensures var y := StampVecs(x, ids);
            && At(env, y, e) && y.s.rows == x.s.rows && y.s.points == x.s.points
            && (y.out == Done ==> x.out == Done && y.s.files == x.s.files.(vecsStamp := Some(ids)))
  {
  }

  lemma ReembedKeeps(env: Env, a: Exec, e: nat, ids: seq<nat>)
    requires At(env, a, e) && e <= 2 && a.out == Done && a.s.files.chunks == Some(ids)
    requires forall id :: id in ids ==> id in a.s.rows
    ensures var d := Reembed(env, a, ids);
            At(env, d, e) && d.s.rows == a.s.rows && d.s.points == a.s.points
            && (d.out == Done && e == 2 ==> Facts(env, d.s, 3))
  {
    hide Inv;
    var b := SaveVecs(a, EmbedRows(env, a.s.rows, ids));
    SaveVecsKeeps(env, a, e, ids);
    StampVecsKeeps(env, b, e, ids);
    FactsOf(env, a.s);
  }

  lemma EmbedKeeps(env: Env, s: Sys, f: Fault)
    requires Inv(env, s)
    ensures Inv(env, EmbedStage(env, s, f).s)
  {
    hide Inv, Facts, Reembed, Move;
    Entered(env, s, f);
    var a, e := Guard(Resume(s, f)), Standing(s);
    if a.out == Done {
      if e >= 3 {
        VecsCurrent(env, s);
      } else if a.s.files.chunks.Some? {
        var ids := a.s.files.chunks.value;
        if forall id :: id in ids ==> id in a.s.rows {
          ReembedKeeps(env, a, e, ids);
          MoveKeeps(env, Reembed(env, a, ids), e, Embedded);
        }
      }
    }
  }

  // ---------- indexing ----------

  lemma PutPointKeeps(env: Env, x: Exec, e: nat, id: nat, vec: Vec)
    requires At(env, x, e) && e <= 3 && id < x.s.next
    requires id in x.s.rows ==> vec == env.embed(x.s.rows[id])
    ensures var y := PutPoint(x, id, Point(vec, env.kb, env.doc));
            && At(env, y, e) && y.s.rows == x.s.rows && y.s.files == x.s.files && y.s.next == x.s.next
            && (y.out == Done ==> x.out == Done && y.s.points == x.s.points[id := Point(vec, env.kb, env.doc)])
            && (y.out != Done ==> y.s.points == x.s.points)
  {
  }

  /** The points after the first ids were written. */
  ghost function WithPoints(env: Env, points: map<nat, Point>, ids: seq<nat>, vecs: map<nat, Vec>): map<nat, Point>
    requires forall id :: id in ids ==> id in vecs
  {
    points + map id | id in ids :: Point(vecs[id], env.kb, env.doc)
  }

  lemma {:induction false} UpsertKeeps(env: Env, x: Exec, e: nat, ids: seq<nat>, vecs: map<nat, Vec>)
    requires At(env, x, e) && e <= 3 && x.s.files.vecs == Some(vecs)
    requires forall id :: id in ids ==> id in vecs
    ensures var y := Upsert(x, env, ids, vecs);
            && At(env, y, e) && y.s.rows == x.s.rows && y.s.files == x.s.files && y.s.next == x.s.next
            && (y.out == Done ==> x.out == Done && y.s.points == WithPoints(env, x.s.points, ids, vecs))
    decreases |ids|
  {
    if ids == [] {
      assert x.s.points == WithPoints(env, x.s.points, ids, vecs);
    } else {
      var init, last := ids[..|ids| - 1], ids[|ids| - 1];
      UpsertKeeps(env, x, e, init, vecs);
      VecOf(env, x.s, last);
      hide At, WithPoints;
      PutPointKeeps(env, Upsert(x, env, init, vecs), e, last, vecs[last]);
      WithOneMore(env, x.s.points, ids, vecs);
    }
  }

  lemma WithOneMore(env: Env, points: map<nat, Point>, ids: seq<nat>, vecs: map<nat, Vec>)
    requires ids != [] && forall id :: id in ids ==> id in vecs
    ensures var last := ids[|ids| - 1];
            WithPoints(env, points, ids, vecs)
            == WithPoints(env, points, ids[..|ids| - 1], vecs)[last := Point(vecs[last], env.kb, env.doc)]
  {
    var init, last := ids[..|ids| - 1], ids[|ids| - 1];
    assert ids == init + [last];
  }

  lemma VecOf(env: Env, s: Sys, id: nat)
    requires Inv(env, s) && s.files.vecs.Some? && id in s.files.vecs.value
    ensures id < s.next && (id in s.rows ==> s.files.vecs.value[id] == env.embed(s.rows[id]))
  {
  }

  lemma {:induction false} DistinctSize(ids: seq<nat>, all: set<nat>)
    requires Distinct(ids) && forall id :: id in all <==> id in ids
    ensures |all| == |ids|
    decreases |ids|
  {
    if ids == [] {
      assert all == {};
    } else {
      var init, last := ids[..|ids| - 1], ids[|ids| - 1];
      assert ids == init + [last];
      assert last !in init;
      DistinctSize(init, all - {last});
      assert |all - {last}| == |all| - 1;
    }
  }

  lemma SubsetSize(a: set<nat>, b: set<nat>)
    requires a <= b
    ensures |a| == |b| <==> a == b
  {
    assert b == a + (b - a);
  }

  lemma OwnAfterUpsert(env: Env, points: map<nat, Point>, ids: seq<nat>, vecs: map<nat, Vec>)
    requires forall id :: id in ids ==> id in vecs
    ensures Own(env, WithPoints(env, points, ids, vecs)) == Own(env, points) + set id | id in ids
  {
  }

  /** Reconciliation: the upserted points are among the document's points, so equal numbers mean
      that there are no others. */
  lemma Reconciles(env: Env, s: Sys, ids: seq<nat>, vecs: map<nat, Vec>)
    requires Lists(env, s.rows, ids) && forall id :: id in ids ==> id in vecs
    ensures var own := Own(env, WithPoints(env, s.points, ids, vecs));
            && own == Own(env, s.points) + s.rows.Keys
            && (|own| == |ids| <==> own == s.rows.Keys)
            && (|own| == |ids| <==> Own(env, s.points) <= s.rows.Keys)
  {
    var all := set id | id in ids;
    assert all == s.rows.Keys;
    DistinctSize(ids, all);
    OwnAfterUpsert(env, s.points, ids, vecs);
    SubsetSize(all, Own(env, WithPoints(env, s.points, ids, vecs)));
  }

  /** Everything index_stage does once it has read its two artifacts, up to the reconciliation. */
  lemma IndexWrites(env: Env, a: Exec, e: nat, ids: seq<nat>, vecs: map<nat, Vec>)
    requires At(env, a, e) && e <= 3 && a.s.files.chunks == Some(ids) && a.s.files.vecs == Some(vecs)
    requires forall id :: id in ids ==> id in vecs
    ensures var b := Move(Upsert(a, env, ids, vecs), Indexed);
            && Inv(env, b.s) && b.s.job.stage != Failed && b.s.files == a.s.files && b.s.rows == a.s.rows
            && (b.out == Done ==> At(env, b, 4) && e == 3 && Lists(env, b.s.rows, ids)
                                  && b.s.points == WithPoints(env, a.s.points, ids, vecs))
  {
    hide WithPoints, Base;
    UpsertKeeps(env, a, e, ids, vecs);
    var u := Upsert(a, env, ids, vecs);
    if u.out == Done && e == 3 {
      AllIndexed(env, a.s, u.s, ids, vecs);
    }
    MoveKeeps(env, u, e, Indexed);
  }

  lemma AllIndexed(env: Env, s: Sys, s': Sys, ids: seq<nat>, vecs: map<nat, Vec>)
    requires Facts(env, s, 3) && s.files.chunks == Some(ids) && forall id :: id in ids ==> id in vecs
    requires s'.points == WithPoints(env, s.points, ids, vecs) && s'.files == s.files && s'.rows == s.rows
    ensures Facts(env, s', 4) && Lists(env, s.rows, ids)
  {
  }

  lemma ReconcileKeeps(env: Env, b: Exec, ids: seq<nat>, points: map<nat, Point>, vecs: map<nat, Vec>)
    requires Inv(env, b.s) && forall id :: id in ids ==> id in vecs
    requires b.out == Done ==>
               At(env, b, 4) && Lists(env, b.s.rows, ids) && b.s.points == WithPoints(env, points, ids, vecs)
    ensures var c := Reconcile(env, b, |ids|);
            && Inv(env, c.s)
            && (c.out == Done ==> b.out == Done && c.s.job.stage == Ready && Own(env, points) <= b.s.rows.Keys)
            && (b.out == Done && b.fuse < 0 ==> (c.out == Done <==> Own(env, points) <= b.s.rows.Keys))
  {
    hide Base, Own, WithPoints, Lists;
    if b.out == Done {
      Reconciles(env, b.s.(points := points), ids, vecs);
      if |Own(env, b.s.points)| == |ids| {
        MoveKeeps(env, b, 4, Ready);
      }
    }
  }

  lemma IndexKeeps(env: Env, s: Sys, f: Fault)
    requires Inv(env, s)
    ensures Inv(env, IndexStage(env, s, f).s)
  {
    hide Inv, Facts, Lists, Move, Upsert, Own, WithPoints, Reconcile;
    Entered(env, s, f);
    var a, e := Guard(Resume(s, f)), Standing(s);
    if a.out == Done && e <= 3 && a.s.files.chunks.Some? && a.s.files.vecs.Some? {
      var ids, vecs := a.s.files.chunks.value, a.s.files.vecs.value;
      if forall id :: id in ids ==> id in vecs {
        IndexWrites(env, a, e, ids, vecs);
        ReconcileKeeps(env, Guard(Move(Upsert(a, env, ids, vecs), Indexed)), ids, a.s.points, vecs);
      }
    }
  }

  /** Every stage, under every fault, keeps the invariant. */
  lemma StageKeeps(env: Env, s: Sys, fn: StageFn, f: Fault)
    requires Inv(env, s)
    ensures Inv(env, RunFn(env, s, fn, f).s)
  {
    hide Inv;
    match fn {
      case ParseFn => ParseKeeps(env, s, f);
      case ChunkFn => ChunkKeeps(env, s, f);
      case EmbedFn => EmbedKeeps(env, s, f);
      case IndexFn => IndexKeeps(env, s, f);
    }
  }

  /** And so does a stage with its error handler. */
  lemma AttemptKeeps(env: Env, s: Sys, fn: StageFn, f: Fault)
    requires Inv(env, s)
    ensures Inv(env, Attempt(env, s, fn, f).0)
  {
    hide RunFn, MarkFailed, Base, Facts;
    StageKeeps(env, s, fn, f);
    MarkFailedKeeps(env, RunFn(env, s, fn, f).s);
  }

  // ---------- histories ----------

  datatype Event = Event(fn: StageFn, fault: Fault)

  /** Any sequence of stage executions, in any order, each with any fault. */
  function History(env: Env, s: Sys, events: seq<Event>): Sys {
    if events == [] then s
    else
      var e := events[|events| - 1];
      Attempt(env, History(env, s, events[..|events| - 1]), e.fn, e.fault).0
  }

  lemma {:induction false} HistoryKeeps(env: Env, s: Sys, events: seq<Event>)
    requires Inv(env, s)
    ensures Inv(env, History(env, s, events))
    decreases |events|
  {
    hide Inv, Attempt;
    if events != [] {
      var e := events[|events| - 1];
      HistoryKeeps(env, s, events[..|events| - 1]);
      AttemptKeeps(env, History(env, s, events[..|events| - 1]), e.fn, e.fault);
    }
  }

  /** The points of the document are exactly the ids in chunks.json, which are exactly the registry's
      rows, and each point holds the embedding of its chunk of the parsed source. */
  ghost predicate Exact(env: Env, s: Sys) {
    && s.files.chunks.Some?
    && var ids := s.files.chunks.value;
       && Lists(env, s.rows, ids)
       && (forall id: nat :: id in ids <==> id in s.rows)
       && (forall id: nat :: id in ids <==>
             id in s.points && s.points[id].kb == env.kb && s.points[id].doc == env.doc)
       && forall i :: 0 <= i < |ids| ==> s.points[ids[i]] == Point(env.embed(Contents(env)[i]), env.kb, env.doc)
  }

  /** READY is exact, over every history of stages, crashes, failures and leftover points. */
  lemma ReadyIsExact(env: Env, s0: Sys, events: seq<Event>)
    requires Init(s0) && History(env, s0, events).job.stage == Ready
    ensures Exact(env, History(env, s0, events))
  {
    InitInv(env, s0);
    HistoryKeeps(env, s0, events);
    ReadyExact(env, History(env, s0, events));
  }

  lemma ReadyExact(env: Env, s: Sys)
    requires Inv(env, s) && s.job.stage == Ready
    ensures Exact(env, s)
  {
    var ids := s.files.chunks.value;
    forall id: nat
      ensures id in ids <==> id in s.points && s.points[id].kb == env.kb && s.points[id].doc == env.doc
    {
      assert id in s.rows.Keys <==> id in Own(env, s.points);
    }
    forall i | 0 <= i < |ids|
      ensures s.points[ids[i]] == Point(env.embed(Contents(env)[i]), env.kb, env.doc)
    {
      assert ids[i] in s.rows;
    }
  }

  /** READY is final: no stage, under any fault, changes anything any more. */
  lemma ReadyIsFrozen(env: Env, s: Sys, fn: StageFn, f: Fault)
    requires Inv(env, s) && s.job.stage == Ready
    ensures Attempt(env, s, fn, f).0 == s
  {
    TextCurrent(env, s);
    ChunksCurrent(env, s);
    VecsCurrent(env, s);
  }

  /** A stage that ends without raising has reached its target. */
  lemma DoneReaches(env: Env, s: Sys, fn: StageFn, f: Fault)
    requires RunFn(env, s, fn, f).out == Done
    ensures StageReached(RunFn(env, s, fn, f).s.job.stage, Target(fn))
  {
    hide RunFn, Resume, Own;
    StageEffect(env, s, fn, f);
  }

  // ---------- what the document row shows ----------

  /** The kills that leave the document row at READY while the job is behind: those of a chunk stage
      that makes the chunks anew, after set_chunks has committed and before the transition has. */
  ghost predicate ShowsReadyEarly(env: Env, s: Sys, fn: StageFn, f: Fault)
    requires JobOk(s.job)
  {
    && fn == ChunkFn && f.crash && !f.atResume && 2 <= f.fuse <= 4
    && Standing(s) <= 1 && s.files.text.Some? && Contents(env) != []
  }

  lemma RechunkStatus(env: Env, a: Exec, text: string, contents: seq<string>)
    requires a.out == Done && Agrees(a.s) && a.s.job.stage in {Uploaded, Parsed}
    ensures var d := Rechunk(env, a, text, contents);
            && d.crash == a.crash && d.s.job == a.s.job && (d.out == Raised ==> !a.crash)
            && (0 <= a.fuse <= 2 ==> d.out == Struck(a.crash)) && (d.out != Done ==> 0 <= a.fuse <= 2)
            && (d.out == Done ==> d.fuse == a.fuse - 3)
            && (Agrees(d.s) <==> a.fuse == 0)
  {
    hide NewRows, FreshIds;
  }

  lemma MoveStatus(d: Exec, to: Stage)
    requires to != Failed && d.s.job.stage != to
    ensures var y := Guard(Move(d, to));
            && (d.out == Done && d.fuse == 0 ==> y.out == Struck(d.crash) && y.s == d.s)
            && (d.out != Done ==> y == d)
            && (d.out == Done && d.fuse != 0 && y.out == Crashed ==> Agrees(y.s))
  {
  }

  lemma ChunkStatus(env: Env, s: Sys, f: Fault)
    requires Inv(env, s) && Agrees(s)
    ensures var x := ChunkStage(env, s, f);
            && JobOk(s.job)
            && (ShowsReadyEarly(env, s, ChunkFn, f) <==> x.out == Crashed && !Agrees(x.s))
  {
    hide Inv, Rechunk, Move, Lists, Resume;
    Entered(env, s, f);
    ResumeShape(s, f);
    ResumeKeeps(env, s, f);
    FactsOf(env, s);
    var a, e := Guard(Resume(s, f)), Standing(s);
    if a.out == Done {
      if e >= 2 {
        ChunksCurrent(env, s);
      } else if a.s.files.text.Some? && Contents(env) != [] {
        RechunkStatus(env, a, Text(env), Contents(env));
        MoveStatus(Rechunk(env, a, Text(env), Contents(env)), Chunked);
      }
    }
  }

  lemma MarkFailedAgrees(env: Env, s: Sys)
    requires Inv(env, s)
    ensures Agrees(MarkFailed(s))
  {
    hide Base, Facts;
  }

  /** Exactly when a stage sets the two rows apart: the document row then reads READY while the job
      is at UPLOADED or PARSED and nothing of the new chunks is indexed. */
  lemma StatusAgreesIff(env: Env, s: Sys, fn: StageFn, f: Fault)
    requires Inv(env, s) && Agrees(s)
    ensures JobOk(s.job)
    ensures Agrees(Attempt(env, s, fn, f).0) <==> !ShowsReadyEarly(env, s, fn, f)
    ensures ShowsReadyEarly(env, s, fn, f) ==>
              Attempt(env, s, fn, f).0.doc.status == Ready && Attempt(env, s, fn, f).0.job.stage in {Uploaded, Parsed}
  {
    hide RunFn, Base, Facts, MarkFailed, Resume, Own;
    var x := RunFn(env, s, fn, f);
    StageKeeps(env, s, fn, f);
    StageEffect(env, s, fn, f);
    ResumeShape(s, f);
    if x.out == Raised {
      MarkFailedAgrees(env, x.s);
    }
    if fn == ChunkFn {
      RunChunk(env, s, f);
      ChunkStatus(env, s, f);
    }
  }

  lemma RunChunk(env: Env, s: Sys, f: Fault)
    ensures RunFn(env, s, ChunkFn, f) == ChunkStage(env, s, f)
  {
  }

  /** Unless the process is killed inside a stage, the document row shows the job's stage after
      every stage. */
  lemma StatusAgrees(env: Env, s: Sys, fn: StageFn, f: Fault)
    requires Inv(env, s) && Agrees(s) && Attempt(env, s, fn, f).1 != Crashed
    ensures Agrees(Attempt(env, s, fn, f).0)
  {
    hide RunFn, Inv, Contents;
    StatusAgreesIff(env, s, fn, f);
    if fn == ChunkFn {
      RunChunk(env, s, f);
      ChunkStatus(env, s, f);
    }
  }

  // ---------- fault-free execution ----------

  lemma MoveCalm(x: Exec, to: Stage)
    requires Calm(x) && to != Failed
    ensures var y := Move(x, to);
            && (x.s.job.stage == to || CanTransition(x.s.job.stage, to) ==> Calm(y) && y.s.job.stage == to)
            && (x.s.job.stage != to && !CanTransition(x.s.job.stage, to) ==> y.out == Raised && y.s == x.s)
            && y.s.files == x.s.files && y.s.rows == x.s.rows && y.s.points == x.s.points
  {
  }

  lemma ParseClean(env: Env, s: Sys)
    requires Inv(env, s)
    ensures var r := ParseStage(env, s, NO_FAULT);
            && JobOk(s.job) && Calm(r) && At(env, r, if Standing(s) == 0 then 1 else Standing(s))
            && r.s.rows == s.rows && r.s.points == s.points
  {
    hide Inv, Move;
    Entered(env, s, NO_FAULT);
    ParseKeeps(env, s, NO_FAULT);
    var a := Guard(Resume(s, NO_FAULT));
    if Standing(s) == 0 {
      StageOf(env, a.s, 0);
      MoveCalm(StampText(SaveText(a, env.parse(env.source)), env.source), Parsed);
    } else {
      TextCurrent(env, s);
    }
  }

  lemma StageOf(env: Env, s: Sys, e: nat)
    requires Inv(env, s) && s.job.stage != Failed && Order(s.job.stage) == e
    ensures JobOk(s.job) && Standing(s) == e
  {
  }

  lemma RechunkCalm(env: Env, a: Exec)
    requires Inv(env, a.s) && Calm(a)
    ensures var d := Rechunk(env, a, Text(env), Contents(env));
            && Calm(d) && d.s.job == a.s.job && d.s.points == a.s.points
            && d.s.rows.Keys !! a.s.points.Keys
  {
  }

  lemma ChunkClean(env: Env, s: Sys)
    requires Inv(env, s)
    ensures var r, e := ChunkStage(env, s, NO_FAULT), if JobOk(s.job) then Standing(s) else 0;
            && JobOk(s.job) && r.s.points == s.points && r.out != Crashed
            && (r.out == Done <==> e >= 2 || (e == 1 && Contents(env) != []))
            && (r.out == Done ==> Calm(r) && At(env, r, if e < 2 then 2 else e))
            && (r.out == Done && e >= 2 ==> r.s.rows == s.rows)
            && (r.out == Done && e < 2 ==> r.s.rows.Keys !! s.points.Keys)
            && (r.out == Raised ==> r.s.job.stage == Effective(s.job))
  {
    hide Inv, Move, Rechunk, Lists;
    Entered(env, s, NO_FAULT);
    ChunkKeeps(env, s, NO_FAULT);
    var a, e := Guard(Resume(s, NO_FAULT)), Standing(s);
    if e >= 2 {
      ChunksCurrent(env, s);
    } else {
      if e == 1 {
        TextCurrent(env, s);
      }
      if a.s.files.text.Some? && Contents(env) != [] {
        RechunkCalm(env, a);
        MoveCalm(Rechunk(env, a, Text(env), Contents(env)), Chunked);
      }
    }
  }

  lemma ReembedCalm(env: Env, a: Exec, ids: seq<nat>)
    requires Calm(a) && forall id :: id in ids ==> id in a.s.rows
    ensures var d := Reembed(env, a, ids);
            Calm(d) && d.s.job == a.s.job && d.s.rows == a.s.rows && d.s.points == a.s.points
  {
  }

  lemma EmbedClean(env: Env, s: Sys)
    requires Inv(env, s)
    ensures var r, e := EmbedStage(env, s, NO_FAULT), if JobOk(s.job) then Standing(s) else 0;
            && JobOk(s.job) && r.s.rows == s.rows && r.s.points == s.points && r.out != Crashed
            && (r.out == Done <==> e >= 2)
            && (r.out == Done ==> Calm(r) && At(env, r, if e < 3 then 3 else e))
            && (r.out == Raised ==> r.s.job.stage == Effective(s.job))
  {
    hide Inv, Move, Reembed, Facts;
    Entered(env, s, NO_FAULT);
    EmbedKeeps(env, s, NO_FAULT);
    var a, e := Guard(Resume(s, NO_FAULT)), Standing(s);
    if e >= 3 {
      VecsCurrent(env, s);
    } else {
      if e == 2 {
        ChunksCurrent(env, s);
      }
      if a.s.files.chunks.Some? {
        var ids := a.s.files.chunks.value;
        if forall id :: id in ids ==> id in a.s.rows {
          ReembedCalm(env, a, ids);
          MoveCalm(Reembed(env, a, ids), Embedded);
        }
      }
    }
  }

  lemma IndexClean(env: Env, s: Sys)
    requires Inv(env, s)
    ensures var r, e := IndexStage(env, s, NO_FAULT), if JobOk(s.job) then Standing(s) else 0;
            && JobOk(s.job) && r.out != Crashed
            && (r.out == Done <==> e >= 4 || (e == 3 && Own(env, s.points) <= s.rows.Keys))
            && (r.out == Done && e == 3 ==> r.s.job.stage == Ready)
            && (e >= 4 ==> r.s.job.stage == Effective(s.job))
            && (r.out == Raised ==> r.s.job.stage == Effective(s.job) || r.s.job.stage == Indexed)
  {
    hide Inv, Move, Upsert, Own, WithPoints, Lists, Reconcile;
    Entered(env, s, NO_FAULT);
    var a, e := Guard(Resume(s, NO_FAULT)), Standing(s);
    if e <= 3 {
      if e == 3 {
        VecsCurrent(env, s);
        ChunksCurrent(env, s);
      }
      if a.s.files.chunks.Some? && a.s.files.vecs.Some? {
        var ids, vecs := a.s.files.chunks.value, a.s.files.vecs.value;
        if forall id :: id in ids ==> id in vecs {
          UpsertShape(env, a, ids, vecs);
          MoveCalm(Upsert(a, env, ids, vecs), Indexed);
          IndexWrites(env, a, e, ids, vecs);
          ReconcileKeeps(env, Guard(Move(Upsert(a, env, ids, vecs), Indexed)), ids, a.s.points, vecs);
          ReconcileRaised(env, Move(Upsert(a, env, ids, vecs), Indexed), |ids|);
        }
      }
    }
  }

  lemma ReconcileRaised(env: Env, b: Exec, n: nat)
    ensures b.out == Raised ==> Reconcile(env, Guard(b), n).out == Raised
    ensures b.out == Raised ==> Reconcile(env, Guard(b), n).s == b.s
    ensures Calm(b) ==> Reconcile(env, Guard(b), n).out != Crashed
    ensures Calm(b) && b.s.job.stage == Indexed && Reconcile(env, Guard(b), n).out == Raised ==>
              Reconcile(env, Guard(b), n).s.job.stage == Indexed
  {
  }

  lemma AttemptDone(env: Env, s: Sys, fn: StageFn, f: Fault)
    ensures Attempt(env, s, fn, f).1 == RunFn(env, s, fn, f).out
    ensures RunFn(env, s, fn, f).out == Done ==> Attempt(env, s, fn, f).0 == RunFn(env, s, fn, f).s
    ensures RunFn(env, s, fn, f).out == Raised ==> Attempt(env, s, fn, f).0 == MarkFailed(RunFn(env, s, fn, f).s)
  {
  }

  /** When a single stage can complete: the condition depends on where the job stands, that is on
      `failed_at` for a failed job, and for index_stage on the points in the store. */
  ghost predicate CanComplete(env: Env, s: Sys, fn: StageFn)
    requires JobOk(s.job)
  {
    match fn
    case ParseFn => true
    case ChunkFn => Standing(s) >= 2 || (Standing(s) == 1 && Contents(env) != [])
    case EmbedFn => Standing(s) >= 2
    case IndexFn => Standing(s) >= 4 || (Standing(s) == 3 && Own(env, s.points) <= s.rows.Keys)
  }

  lemma StageCompletesIff(env: Env, s: Sys, fn: StageFn)
    requires Inv(env, s)
    ensures JobOk(s.job) && (Attempt(env, s, fn, NO_FAULT).1 == Done <==> CanComplete(env, s, fn))
  {
    hide Inv, ParseStage, ChunkStage, EmbedStage, IndexStage, Own;
    AttemptDone(env, s, fn, NO_FAULT);
    ParseClean(env, s);
    ChunkClean(env, s);
    EmbedClean(env, s);
    IndexClean(env, s);
  }

  // ---------- recovery ----------

  /** When a whole run can still bring the job to READY: it was not killed right after INDEXED was
      recorded, the text gives at least one chunk, and the store holds no points of the document
      other than those of the chunks the run keeps. It keeps the chunks if it stands at CHUNKED
      or later and makes new ones otherwise. */
  ghost predicate Recoverable(env: Env, s: Sys)
    requires JobOk(s.job)
  {
    && s.job.stage != Indexed && Contents(env) != []
    && Own(env, s.points) <= if Standing(s) >= 2 then s.rows.Keys else {}
  }

  const CALM := [NO_FAULT, NO_FAULT, NO_FAULT, NO_FAULT]

  lemma RunUnfolds(env: Env, s: Sys)
    ensures var p := Attempt(env, s, ParseFn, NO_FAULT);
            var c := Attempt(env, p.0, ChunkFn, NO_FAULT);
            var e := Attempt(env, c.0, EmbedFn, NO_FAULT);
            var i := Attempt(env, e.0, IndexFn, NO_FAULT);
            Run(env, s, CALM) == if p.1 != Done then p else if c.1 != Done then c else if e.1 != Done then e else i
  {
    hide Attempt;
    var p := Attempt(env, s, ParseFn, NO_FAULT);
    var c := Attempt(env, p.0, ChunkFn, NO_FAULT);
    var e := Attempt(env, c.0, EmbedFn, NO_FAULT);
    var i := Attempt(env, e.0, IndexFn, NO_FAULT);
    assert STAGES[1..] == [ChunkFn, EmbedFn, IndexFn] && CALM[1..] == [NO_FAULT, NO_FAULT, NO_FAULT];
    assert STAGES[1..][1..] == [EmbedFn, IndexFn] && CALM[1..][1..] == [NO_FAULT, NO_FAULT];
    assert STAGES[1..][1..][1..] == [IndexFn] && CALM[1..][1..][1..] == [NO_FAULT];
    assert RunFrom(env, e.0, [IndexFn], [NO_FAULT]) == i by {
      assert [IndexFn][1..] == [] && [NO_FAULT][1..] == [];
    }
    assert RunFrom(env, c.0, [EmbedFn, IndexFn], [NO_FAULT, NO_FAULT]) == if e.1 == Done then i else e;
  }

  lemma OwnAmong(env: Env, points: map<nat, Point>)
    ensures Own(env, points) <= points.Keys
  {
  }

  lemma NotReady(s: Sys)
    requires s.job.stage != Ready
    ensures MarkFailed(s).job.stage == Failed
  {
  }

  /** Crash recovery, exactly: from every reachable state, a fault-free run ends READY if and only
      if the job was READY already or is recoverable. It returns without raising in one case more:
      from INDEXED. */
  lemma RecoversIff(env: Env, s: Sys)
    requires Inv(env, s)
    ensures JobOk(s.job)
    ensures Run(env, s, CALM).0.job.stage == Ready <==> s.job.stage == Ready || Recoverable(env, s)
    ensures Run(env, s, CALM).1 == Done <==> s.job.stage in {Indexed, Ready} || Recoverable(env, s)
  {
    hide Inv, ParseStage, ChunkStage, EmbedStage, IndexStage, Own, MarkFailed, Attempt;
    RunUnfolds(env, s);
    OwnAmong(env, s.points);
    FactsOf(env, s);
    if Standing(s) >= 2 {
      ChunksCurrent(env, s);
    }
    AttemptDone(env, s, ParseFn, NO_FAULT);
    ParseClean(env, s);
    var p := RunFn(env, s, ParseFn, NO_FAULT).s;
    AttemptDone(env, p, ChunkFn, NO_FAULT);
    ChunkClean(env, p);
    if RunFn(env, p, ChunkFn, NO_FAULT).out == Raised {
      NotReady(RunFn(env, p, ChunkFn, NO_FAULT).s);
    } else {
      var c := RunFn(env, p, ChunkFn, NO_FAULT).s;
      AttemptDone(env, c, EmbedFn, NO_FAULT);
      EmbedClean(env, c);
      assert RunFn(env, c, EmbedFn, NO_FAULT).out == Done;
      var e := RunFn(env, c, EmbedFn, NO_FAULT).s;
      AttemptDone(env, e, IndexFn, NO_FAULT);
      IndexClean(env, e);
      if RunFn(env, e, IndexFn, NO_FAULT).out == Raised {
        NotReady(RunFn(env, e, IndexFn, NO_FAULT).s);
      }
    }
  }

  /** A run from INDEXED does nothing and reports nothing: the job is still not READY. */
  lemma RunFromIndexed(env: Env, s: Sys)
    requires Inv(env, s) && s.job.stage == Indexed
    ensures Run(env, s, CALM) == (s, Done)
  {
    hide Attempt;
    RunUnfolds(env, s);
    SkippedWhenIndexed(env, s, ParseFn);
    SkippedWhenIndexed(env, s, ChunkFn);
    SkippedWhenIndexed(env, s, EmbedFn);
    SkippedWhenIndexed(env, s, IndexFn);
  }

  lemma SkippedWhenIndexed(env: Env, s: Sys, fn: StageFn)
    requires Inv(env, s) && s.job.stage == Indexed
    ensures Attempt(env, s, fn, NO_FAULT) == (s, Done)
  {
    TextCurrent(env, s);
    ChunksCurrent(env, s);
    VecsCurrent(env, s);
  }

  lemma InvAlong(env: Env, s0: Sys, events: seq<Event>)
    requires Init(s0)
    ensures Inv(env, History(env, s0, events)) && JobOk(History(env, s0, events).job)
  {
    InitInv(env, s0);
    HistoryKeeps(env, s0, events);
    FactsOf(env, History(env, s0, events));
  }

  /** From any state left by crashing or failing at any step while the document has no points yet,
      a fault-free run raises nothing and ends READY, provided that the text gives a chunk. */
  lemma RecoversBeforeUpsert(env: Env, s0: Sys, events: seq<Event>)
    requires Init(s0) && Contents(env) != []
    requires Own(env, History(env, s0, events).points) == {}
    ensures var r := Run(env, History(env, s0, events), CALM);
            r.1 == Done && r.0.job.stage == Ready && Exact(env, r.0)
  {
    var s := History(env, s0, events);
    InvAlong(env, s0, events);
    if s.job.stage == Indexed {
      IndexedHasPoints(env, s);
    }
    hide Inv, Run;
    RecoversIff(env, s);
    RunKeeps(env, s, CALM);
    ReadyExact(env, Run(env, s, CALM).0);
  }

  lemma IndexedHasPoints(env: Env, s: Sys)
    requires Inv(env, s) && s.job.stage == Indexed
    ensures Own(env, s.points) != {}
  {
    var ids := s.files.chunks.value;
    assert ids[0] in s.rows && ids[0] in Own(env, s.points);
  }

  lemma {:induction false} RunFromKeeps(env: Env, s: Sys, fns: seq<StageFn>, faults: seq<Fault>)
    requires Inv(env, s) && |faults| == |fns|
    ensures Inv(env, RunFrom(env, s, fns, faults).0)
    decreases |fns|
  {
    hide Inv, Attempt;
    if fns != [] {
      AttemptKeeps(env, s, fns[0], faults[0]);
      RunFromKeeps(env, Attempt(env, s, fns[0], faults[0]).0, fns[1..], faults[1..]);
    }
  }

  lemma RunKeeps(env: Env, s: Sys, faults: seq<Fault>)
    requires Inv(env, s) && |faults| == 4
    ensures Inv(env, Run(env, s, faults).0)
  {
    RunFromKeeps(env, s, STAGES, faults);
  }

  // ---------- left-over points ----------

  /** A point of the document whose chunk row is gone. */
  ghost predicate Orphan(env: Env, s: Sys, o: nat) {
    o in Own(env, s.points) && o !in s.rows && o < s.next
  }

  lemma OrphanStays(env: Env, s: Sys, fn: StageFn, f: Fault, o: nat)
    requires Orphan(env, s, o)
    ensures Orphan(env, RunFn(env, s, fn, f).s, o)
  {
    hide RunFn, Resume, Own;
    ResumeShape(s, f);
    StageEffect(env, s, fn, f);
  }

  lemma MarkFailedStores(s: Sys)
    ensures MarkFailed(s).rows == s.rows && MarkFailed(s).points == s.points && MarkFailed(s).next == s.next
  {
  }

  lemma {:induction false} OrphanForever(env: Env, s: Sys, events: seq<Event>, o: nat)
    requires Orphan(env, s, o)
    ensures Orphan(env, History(env, s, events), o)
    decreases |events|
  {
    hide RunFn, Orphan, MarkFailed;
    if events != [] {
      var t, e := History(env, s, events[..|events| - 1]), events[|events| - 1];
      OrphanForever(env, s, events[..|events| - 1], o);
      OrphanStays(env, t, e.fn, e.fault, o);
      MarkFailedStores(RunFn(env, t, e.fn, e.fault).s);
      SameOrphan(env, RunFn(env, t, e.fn, e.fault).s, MarkFailed(RunFn(env, t, e.fn, e.fault).s), o);
    }
  }

  lemma SameOrphan(env: Env, s: Sys, s': Sys, o: nat)
    requires s'.rows == s.rows && s'.points == s.points && s'.next == s.next
    ensures Orphan(env, s', o) == Orphan(env, s, o)
  {
  }

  /** Safe but stuck: once the store holds a point of the document whose chunk is gone, as after a
      re-chunk that follows an upsert, no history brings the job to READY. */
  lemma OrphanBlocksReady(env: Env, s: Sys, events: seq<Event>, o: nat)
    requires Inv(env, s) && Orphan(env, s, o)
    ensures History(env, s, events).job.stage != Ready
  {
    HistoryKeeps(env, s, events);
    OrphanForever(env, s, events, o);
    if History(env, s, events).job.stage == Ready {
      ReadyExact(env, History(env, s, events));
    }
  }

  /** The document row can read READY while nothing is indexed: kill the process right after
      set_chunks commits. */
  lemma PrematureReady(env: Env, s0: Sys)
    requires Init(s0) && Contents(env) != []
    ensures var s := History(env, s0, [Event(ParseFn, NO_FAULT), Event(ChunkFn, Fault(false, 2, true))]);
            s.doc.status == Ready && s.job.stage == Parsed && s.points == s0.points
  {
    var e1, e2 := Event(ParseFn, NO_FAULT), Event(ChunkFn, Fault(false, 2, true));
    var p := Attempt(env, s0, ParseFn, NO_FAULT).0;
    assert p.job.stage == Parsed && p.files.text == Some(Text(env)) && p.points == s0.points;
    assert [e1][..0] == [] && [e1, e2][..1] == [e1];
    assert History(env, s0, [e1]) == p by {
      assert History(env, s0, []) == s0;
    }
    PrematureChunk(env, p);
  }

  lemma PrematureChunk(env: Env, p: Sys)
    requires p.job.stage == Parsed && p.files.text == Some(Text(env)) && Contents(env) != []
    ensures var s := Attempt(env, p, ChunkFn, Fault(false, 2, true)).0;
            s.doc.status == Ready && s.job.stage == Parsed && s.points == p.points
  {
  }
}
