/** core/retrieval/search.py as the object it is: the registry rows, the vector points and the two
    caches, changed step by step. */
module SearchServiceObject {
  import opened Wrappers
  import opened Sorting
  import opened Fusion
  import opened SearchCache
  import Parent

  class SearchService {
    const engine: Engine
    var docs: map<Doc, DocRow>
    var rows: seq<ChunkRow>
    var points: map<Id, Point>
    var hybrids: map<Kb, Hybrid>
    var sequences: map<Kb, Sequences>
    ghost var issued: map<Id, Doc>

    ghost function State(): State
      reads this
    {
      SearchCache.State(docs, rows, points, hybrids, sequences, issued)
    }

    constructor (engine: Engine)
      ensures State() == START && this.engine == engine
    {
      this.engine := engine;
      docs, rows, points, hybrids, sequences, issued := map[], [], map[], map[], map[], map[];
    }

    /** On a miss the retriever is built from the registry, which raises if its corpus has no token. */
    method GetHybrid(kb: Kb) returns (r: Option<Hybrid>)
      modifies this`hybrids
      ensures State() == SearchCache.GetHybrid(engine, old(State()), kb)
      ensures r == Get(hybrids, kb)
    {
      if kb !in hybrids {
        var built := BuildHybrid(rows, kb);
        if !Indexable(engine, built.corpus) {
          return None;
        }
        hybrids := hybrids[kb := built];
      }
      return Some(hybrids[kb]);
    }

    method ChunkSequences(kb: Kb) returns (seqs: Sequences)
      modifies this`sequences
      ensures State() == SearchCache.ChunkSequences(old(State()), kb)
      ensures kb in sequences && seqs == sequences[kb]
    {
      if kb !in sequences {
        sequences := sequences[kb := BuildSequences(rows, kb)];
      }
      seqs := sequences[kb];
    }

    method InvalidateHybrid(kb: Kb)
      modifies this`hybrids, this`sequences
      ensures State() == Invalidate(old(State()), kb)
    {
      hybrids := hybrids - {kb};
      sequences := sequences - {kb};
    }

    method UpsertPoints(added: seq<ChunkRow>)
      modifies this`points
      ensures points == Upsert(old(points), added, engine.embed)
    {
      assert added[..0] == [];
      for i := 0 to |added|
        invariant points == Upsert(old(points), added[..i], engine.embed)
      {
        assert added[..i + 1][..i] == added[..i];
        points := points[added[i].id := PointOf(engine.embed, added[i])];
      }
      assert added[..|added|] == added;
    }

    method IngestFile(kb: Kb, text: string, doc: Doc, ids: seq<Id>, fault: IngestFault) returns (result: IngestResult)
      requires |ids| == |engine.chunk(text)|
      modifies this
      ensures (State(), result) == SearchCache.IngestFile(engine, old(State()), kb, text, doc, ids, fault)
    {
      hide NewRows, SetChunks, Upsert, Take, FindByHash;
      if FindByHash(docs, kb, text) {
        return Existing;
      }
      var chunks := engine.chunk(text);
      if chunks == [] {
        return Empty;
      }
      if fault.CreateRaises? {
        return Raised;
      }
      docs := docs[doc := DocRow(kb, text, false)];
      if fault.EmbedRaises? || fault.SetChunksRaises? {
        MarkFailed(kb, text, doc, fault.marked);
        assert docs == old(docs)[doc := DocRow(kb, text, fault.marked)];
        return Raised;
      }
      StoreChunks(kb, doc, ids, chunks, if fault.UpsertRaises? then fault.written else |ids|);
      if fault.UpsertRaises? {
        MarkFailed(kb, text, doc, fault.marked);
        assert docs == old(docs)[doc := DocRow(kb, text, fault.marked)];
        return Raised;
      }
      InvalidateHybrid(kb);
      result := Ingested;
    }

    /** set_chunks, and the upsert of the points as far as it gets. */
    method StoreChunks(kb: Kb, doc: Doc, ids: seq<Id>, chunks: seq<string>, written: nat)
      requires |ids| == |chunks|
      modifies this`rows, this`points, this`issued
      ensures var added := NewRows(doc, kb, ids, chunks);
              && rows == SetChunks(old(rows), doc, added)
              && points == Upsert(old(points), Take(added, written), engine.embed)
              && (written == |ids| ==> points == Upsert(old(points), added, engine.embed))
      ensures issued == old(issued) + map id | id in ids :: doc
    {
      hide SetChunks, Upsert;
      var added := NewRows(doc, kb, ids, chunks);
      rows := SetChunks(rows, doc, added);
      issued := issued + map id | id in ids :: doc;
      UpsertPoints(Take(added, written));
      assert Take(added, |ids|) == added;
    }

    /** mark_document_failed, unless that raises. */
    method MarkFailed(kb: Kb, text: string, doc: Doc, marked: bool)
      requires doc in docs && docs[doc] == DocRow(kb, text, false)
      modifies this`docs
      ensures docs == old(docs)[doc := DocRow(kb, text, marked)]
    {
      if marked {
        docs := docs[doc := DocRow(kb, text, true)];
      }
    }

    method DeleteDocument(kb: Kb, doc: Doc)
      modifies this
      ensures State() == SearchCache.DeleteDocument(old(State()), kb, doc)
    {
      points := DeleteByDocument(points, kb, doc);
      rows := WithoutDoc(rows, doc);
      if doc in docs && docs[doc].kb == kb {
        docs := docs - {doc};
      }
      InvalidateHybrid(kb);
    }

    /** search; None stands for the exception of a retriever that cannot be built. */
    method Search(kb: Kb, query: string, topK: nat) returns (answer: Option<seq<SearchResult>>)
      requires Lawful(engine) && WellFormed(engine, State())
      modifies this`hybrids, this`sequences
      ensures State() == SearchState(engine, old(State()), kb, query)
      ensures answer == SearchAnswer(engine, old(State()), kb, query, topK)
    {
      hide BuildHybrid, BuildSequences, FusedHits, SparseIds, ResultsOf, Rerank, Indexable, KbPoints;
      FillKeepsForm(engine, State(), kb);
      var hybrid := GetHybrid(kb);
      if hybrid.None? {
        return None;
      }
      var dense := engine.dense(KbPoints(points, kb), engine.embed(query));
      var hits := HybridSearch(dense, SparseIds(engine, hybrid.value, query), engine.rrfK, engine.retrievalTopK);
      if hits == [] {
        NoHitsNoAnswer(engine, State(), hybrid.value, SearchCache.ChunkSequences(State(), kb).sequences[kb], kb, query,
                       topK);
        return Some([]);
      }
      var top := Rerank(hits, engine.rerank(query, HitTexts(rows, hits)), engine.rerankTopK);
      var seqs := ChunkSequences(kb);
      var results := CollectResults(seqs, top);
      return Some(Take(results, topK));
    }

    /** The expansion and the final loop of a search. */
    method CollectResults(seqs: Sequences, top: seq<Pair<HybridHit>>) returns (results: seq<SearchResult>)
      ensures results == ResultsOf(rows, seqs, top)
    {
      hide Parent.Expanded, ContentMap, DocMap;
      var ids := seq(|top|, i requires 0 <= i < |top| => top[i].hit.chunkId);
      var expanded := Parent.ExpandParents(ids, PARENT_SIZE, seqs.allIds, seqs.ordered, seqs.docMap);
      var contents, docsByChunk := ContentMap(rows), DocMap(rows);
      results := [];
      for i := 0 to |top|
        invariant |results| == i
        invariant forall k :: 0 <= k < i ==> results[k] == ResultOf(rows, seqs, top[k].hit, top[k].score)
      {
        var hit := top[i].hit;
        assert ids[i] == hit.chunkId;
        var denseScore := if hit.denseScore.Some? then hit.denseScore.value else 0.0;
        results := results + [SearchResult(hit.chunkId, GetOr(docsByChunk, hit.chunkId, ""), top[i].score, denseScore,
                                     GetOr(contents, hit.chunkId, ""), expanded[hit.chunkId])];
      }
    }
  }
}
