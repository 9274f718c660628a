/** core/ingest/pipeline.py in its own form: an object whose methods write the artifact files,
    the rows and the points one by one. Each method is proved to do what the step functions of
    Pipeline say, with the fault striking at the same place. */
module IngestPipelineObject {
  import opened Wrappers
  import opened IngestState
  import P = Pipeline

  class IngestPipeline {
    const env: P.Env
    var job: Job
    var doc: P.DocRow
    var files: P.Files
    var rows: map<nat, string>
    var points: map<nat, P.Point>
    var next: nat
    /** The fault planned for the stage that is running. */
    var fuse: int
    var crash: bool

    constructor (env: P.Env, points: map<nat, P.Point>, next: nat)
      requires forall id :: id in points ==> id < next
      ensures this.env == env && P.Init(State()) && State().points == points
    {
      this.env := env;
      job, doc := NEW_JOB, P.DocRow(Uploaded, None);
      files := P.Files(None, None, None, None, None, None);
      this.rows, this.points, this.next := map[], points, next;
      fuse, crash := -1, false;
    }

    function State(): P.Sys
      reads this
    {
      P.Sys(job, doc, files, rows, points, next)
    }

    ghost function Now(out: P.Outcome): P.Exec
      reads this
    {
      P.Exec(State(), fuse, crash, out)
    }

    /** The fault strikes before the next step, or not. */
    method Tick() returns (out: P.Outcome)
      modifies this`fuse
      ensures Now(out) == P.Guard(old(Now(P.Done)))
    {
      if fuse == 0 {
        return P.Struck(crash);
      }
      fuse := fuse - 1;
      return P.Done;
    }

    /** Registry.transition_job: one commit on the job row and the document row. */
    method CommitTransition(to: Stage, error: Option<string>) returns (ok: bool)
      modifies this`job, this`doc
      ensures ok == P.MoveRows(old(State()), to, error).Success?
      ensures State() == if ok then P.MoveRows(old(State()), to, error).value else old(State())
    {
      if job.stage == to {
        return true;
      }
      if !CanTransition(job.stage, to) {
        return false;
      }
      var frm := job.stage;
      job := job.(stage := to);
      doc := doc.(status := to);
      if to == Failed {
        job := job.(attempt := job.attempt + 1, failedAt := Some(frm), error := error);
        doc := doc.(error := error);
      } else if frm == Failed {
        job := job.(error := None);
        doc := doc.(error := None);
      }
      return true;
    }

    method Advance(to: Stage) returns (out: P.Outcome)
      modifies this`job, this`doc, this`fuse
      ensures Now(out) == P.Move(old(Now(P.Done)), to)
    {
      out := Tick();
      if out == P.Done {
        var ok := CommitTransition(to, None);
        if !ok {
          out := P.Raised;
        }
      }
    }

    /** _resume_if_failed */
    method ResumeIfFailed(f: P.Fault) returns (out: P.Outcome)
      modifies this`job, this`doc, this`fuse, this`crash
      ensures Now(out) == P.Resume(old(State()), f)
    {
      fuse, crash := f.fuse, f.crash;
      if f.atResume {
        return P.Struck(f.crash);
      }
      if job.stage != Failed {
        return P.Done;
      }
      var failedAt := if job.failedAt.Some? then job.failedAt.value else Uploaded;
      var to := RetryFrom(failedAt);
      if to.None? {
        return P.Raised;
      }
      var ok := CommitTransition(to.value, None);
      return if ok then P.Done else P.Raised;
    }

    method Enter(f: P.Fault) returns (out: P.Outcome)
      modifies this`job, this`doc, this`fuse, this`crash
      ensures Now(out) == P.Guard(P.Resume(old(State()), f))
    {
      out := ResumeIfFailed(f);
      if out == P.Done {
        out := Tick();
      }
    }

    method ParseStage(f: P.Fault) returns (out: P.Outcome)
      modifies this
      ensures Now(out) == P.ParseStage(env, old(State()), f)
    {
      out := Enter(f);
      if out != P.Done {
        return;
      }
      var stale := P.Stale(files.text, files.textStamp, Some(env.source));
      if StageReached(job.stage, Parsed) && stale == Some(false) {
        return;
      }
      var parsed := env.parse(env.source);
      out := Tick();
      if out != P.Done {
        return;
      }
      files := files.(text := Some(parsed));
      out := Tick();
      if out != P.Done {
        return;
      }
      files := files.(textStamp := Some(env.source));
      out := Advance(Parsed);
      if out != P.Done {
        return;
      }
      out := Tick();
    }

    /** Registry.set_chunks: new rows with fresh ids, in one commit. */
    method SetChunks(contents: seq<string>) returns (out: P.Outcome, ids: seq<nat>)
      modifies this`rows, this`doc, this`next, this`fuse
      ensures Now(out) == P.SetChunks(old(Now(P.Done)), contents)
      ensures out == P.Done ==> ids == P.FreshIds(old(next), |contents|)
    {
      ids := [];
      out := Tick();
      if out != P.Done {
        return;
      }
      var made: map<nat, string> := map[];
      for i := 0 to |contents|
        invariant ids == P.FreshIds(next, i) && made == P.NewRows(next, contents[..i])
      {
        assert contents[..i + 1][..i] == contents[..i];
        ids := ids + [next + i];
        made := made[next + i := contents[i]];
      }
      assert contents[..|contents|] == contents;
      rows := made;
      next := next + |contents|;
      doc := P.DocRow(Ready, None);
    }

    method ChunkStage(f: P.Fault) returns (out: P.Outcome)
      modifies this
      ensures Now(out) == P.ChunkStage(env, old(State()), f)
    {
      out := Enter(f);
      if out != P.Done {
        return;
      }
      if StageReached(job.stage, Chunked) {
        var stale := P.Stale(files.chunks, files.chunksStamp, files.text);
        if stale.None? {
          return P.Raised;
        } else if !stale.value {
          return;
        }
      }
      if files.text.None? {
        return P.Raised;
      }
      var text := files.text.value;
      var contents := env.chunk(text);
      if contents == [] {
        return P.Raised;
      }
      var ids;
      out, ids := SetChunks(contents);
      if out != P.Done {
        return;
      }
      out := Tick();
      if out != P.Done {
        return;
      }
      files := files.(chunks := Some(ids));
      out := Tick();
      if out != P.Done {
        return;
      }
      files := files.(chunksStamp := Some(text));
      out := Advance(Chunked);
      if out != P.Done {
        return;
      }
      out := Tick();
    }

    method EmbedStage(f: P.Fault) returns (out: P.Outcome)
      modifies this
      ensures Now(out) == P.EmbedStage(env, old(State()), f)
    {
      out := Enter(f);
      if out != P.Done {
        return;
      }
      if StageReached(job.stage, Embedded) {
        var stale := P.Stale(files.vecs, files.vecsStamp, files.chunks);
        if stale.None? {
          return P.Raised;
        } else if !stale.value {
          return;
        }
      }
      if files.chunks.None? {
        return P.Raised;
      }
      var ids := files.chunks.value;
      if exists id :: id in ids && id !in rows {
        return P.Raised;
      }
      var vecs := P.EmbedRows(env, rows, ids);
      out := Tick();
      if out != P.Done {
        return;
      }
      files := files.(vecs := Some(vecs));
      out := Tick();
      if out != P.Done {
        return;
      }
      files := files.(vecsStamp := Some(ids));
      out := Advance(Embedded);
      if out != P.Done {
        return;
      }
      out := Tick();
    }

    /** InMemoryVectorStore.upsert: the points are written one after the other. */
    method Upsert(ids: seq<nat>, vecs: map<nat, P.Vec>) returns (out: P.Outcome)
      requires forall id :: id in ids ==> id in vecs
      modifies this`points, this`fuse
      ensures Now(out) == P.Upsert(old(Now(P.Done)), env, ids, vecs)
    {
      ghost var a := Now(P.Done);
      out := P.Done;
      for k := 0 to |ids|
        invariant out == P.Done && Now(out) == P.Upsert(a, env, ids[..k], vecs)
      {
        assert ids[..k + 1][..k] == ids[..k];
        out := Tick();
        if out != P.Done {
          StopsHere(a, env, ids, vecs, k + 1);
          return;
        }
        points := points[ids[k] := P.Point(vecs[ids[k]], env.kb, env.doc)];
      }
      assert ids[..|ids|] == ids;
    }

    static lemma {:induction false} StopsHere(a: P.Exec, env: P.Env, ids: seq<nat>, vecs: map<nat, P.Vec>, k: nat)
      requires k <= |ids| && forall id :: id in ids ==> id in vecs
      requires P.Upsert(a, env, ids[..k], vecs).out != P.Done
      ensures P.Upsert(a, env, ids, vecs) == P.Upsert(a, env, ids[..k], vecs)
      decreases |ids|
    {
      if k == |ids| {
        assert ids[..k] == ids;
      } else {
        var init := ids[..|ids| - 1];
        assert init[..k] == ids[..k];
        StopsHere(a, env, init, vecs, k);
      }
    }

    method IndexStage(f: P.Fault) returns (out: P.Outcome)
      modifies this
      ensures Now(out) == P.IndexStage(env, old(State()), f)
    {
      out := Enter(f);
      if out != P.Done || StageReached(job.stage, Indexed) {
        return;
      }
      if files.chunks.None? || files.vecs.None? {
        return P.Raised;
      }
      var ids, vecs := files.chunks.value, files.vecs.value;
      if exists id :: id in ids && id !in vecs {
        return P.Raised;
      }
      out := Upsert(ids, vecs);
      if out != P.Done {
        return;
      }
      out := Advance(Indexed);
      if out != P.Done {
        return;
      }
      out := Tick();
      if out != P.Done {
        return;
      }
      if |P.Own(env, points)| != |ids| {
        return P.Raised;
      }
      out := Advance(Ready);
      if out != P.Done {
        return;
      }
      out := Tick();
    }

    method MarkFailed()
      modifies this`job, this`doc
      ensures State() == P.MarkFailed(old(State()))
    {
      var _ := CommitTransition(Failed, Some("error"));
    }

    /** run: the first stage that raises marks the job failed and ends the run; a crash ends it. */
    method Run(faults: seq<P.Fault>) returns (out: P.Outcome)
      requires |faults| == 4
      modifies this
      ensures (State(), out) == P.Run(env, old(State()), faults)
    {
      out := P.Done;
      ghost var s0 := State();
      for k := 0 to 4
        invariant out == P.Done
        invariant P.RunFrom(env, State(), P.STAGES[k..], faults[k..]) == P.Run(env, s0, faults)
      {
        ghost var s := State();
        match P.STAGES[k] {
          case ParseFn => out := ParseStage(faults[k]);
          case ChunkFn => out := ChunkStage(faults[k]);
          case EmbedFn => out := EmbedStage(faults[k]);
          case IndexFn => out := IndexStage(faults[k]);
        }
        if out == P.Raised {
          MarkFailed();
        }
        assert (State(), out) == P.Attempt(env, s, P.STAGES[k], faults[k]);
        assert P.STAGES[k..][1..] == P.STAGES[k + 1..] && faults[k..][1..] == faults[k + 1..];
        if out != P.Done {
          return;
        }
      }
    }
  }
}
