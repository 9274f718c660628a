/** What core/retrieval/search.py promises of one search, one upload and one deletion, said of the
    rows of the registry, the points of the store and the answers of the foreign parts alone. */
module SearchLaws {
  import opened Bounds
  import opened Wrappers
  import opened Sorting
  import opened Fusion
  import opened SearchCache
  import Parent

  // ---------- what a KB lists ----------

  lemma {:induction false} OfKbCounts(rows: seq<ChunkRow>, kb: Kb, r: ChunkRow)
    ensures multiset(OfKb(rows, kb))[r] == if r.kb == kb then multiset(rows)[r] else 0
    decreases |rows|
  {
    if rows != [] {
      var init, last := rows[..|rows| - 1], rows[|rows| - 1];
      OfKbCounts(init, kb, r);
      assert rows == init + [last];
    }
  }

  lemma {:induction false} OfDocCounts(rows: seq<ChunkRow>, doc: Doc, r: ChunkRow)
    ensures multiset(OfDoc(rows, doc))[r] == if r.doc == doc then multiset(rows)[r] else 0
    decreases |rows|
  {
    if rows != [] {
      var init, last := rows[..|rows| - 1], rows[|rows| - 1];
      OfDocCounts(init, doc, r);
      assert rows == init + [last];
    }
  }

  lemma RowOrder()
    ensures KeyLike(RowBefore)
  {
    hide LexLess;
    LexKeyLike();
    forall a, b, c | !RowBefore(a, b) && !RowBefore(b, c) ensures !RowBefore(a, c) {
      LexTotal(a.doc, b.doc);
      LexTotal(b.doc, c.doc);
    }
  }

  ghost predicate ByDocAndIndex(rows: seq<ChunkRow>) {
    forall i, j :: 0 <= i < j < |rows| ==>
      LexLess(rows[i].doc, rows[j].doc) || (rows[i].doc == rows[j].doc && rows[i].index <= rows[j].index)
  }

  /** A KB lists exactly its rows, by document and then by index. */
  lemma ListExact(rows: seq<ChunkRow>, kb: Kb)
    ensures forall r :: multiset(ListChunks(rows, kb))[r] == if r.kb == kb then multiset(rows)[r] else 0
    ensures ByDocAndIndex(ListChunks(rows, kb))
  {
    hide OfKb, SortBy, LexLess;
    SortElements(OfKb(rows, kb), RowBefore);
    forall r ensures multiset(ListChunks(rows, kb))[r] == if r.kb == kb then multiset(rows)[r] else 0 {
      OfKbCounts(rows, kb, r);
    }
    RowOrder();
    SortSorts(OfKb(rows, kb), RowBefore);
    var list := ListChunks(rows, kb);
    forall i, j | 0 <= i < j < |list|
      ensures LexLess(list[i].doc, list[j].doc) || (list[i].doc == list[j].doc && list[i].index <= list[j].index)
    {
      assert !RowBefore(list[j], list[i]);
      LexTotal(list[i].doc, list[j].doc);
    }
  }

  ghost predicate ByIndex(rows: seq<ChunkRow>) {
    forall i, j :: 0 <= i < j < |rows| ==> rows[i].index <= rows[j].index
  }

  lemma {:induction false} OfDocSorted(rows: seq<ChunkRow>, doc: Doc)
    requires ByDocAndIndex(rows)
    ensures ByIndex(OfDoc(rows, doc))
    decreases |rows|
  {
    hide LexLess;
    if rows != [] {
      var init, last := rows[..|rows| - 1], rows[|rows| - 1];
      OfDocSorted(init, doc);
      OfDocMembers(init, doc);
      if last.doc == doc {
        var rs := OfDoc(init, doc);
        forall i | 0 <= i < |rs| ensures rs[i].index <= last.index {
          assert rs[i] in init;
          var k :| 0 <= k < |init| && init[k] == rs[i];
          LexIrreflexive(doc);
        }
      }
    }
  }

  lemma LexIrreflexive(s: string)
    ensures !LexLess(s, s)
  {
    if LexLess(s, s) {
      LexAsymmetric(s, s);
    }
  }

  /** Within a KB the chunks of a document, among which a hit is widened, are exactly its rows, by index. */
  lemma DocumentInOrder(rows: seq<ChunkRow>, kb: Kb, doc: Doc)
    ensures ByIndex(OfDoc(ListChunks(rows, kb), doc))
    ensures forall r :: multiset(OfDoc(ListChunks(rows, kb), doc))[r]
                        == if r.kb == kb && r.doc == doc then multiset(rows)[r] else 0
  {
    hide ListChunks, OfDoc, ByIndex, ByDocAndIndex;
    ListExact(rows, kb);
    OfDocSorted(ListChunks(rows, kb), doc);
    forall r
      ensures multiset(OfDoc(ListChunks(rows, kb), doc))[r]
              == if r.kb == kb && r.doc == doc then multiset(rows)[r] else 0
    {
      OfDocCounts(ListChunks(rows, kb), doc, r);
    }
  }

  /** A retriever is built over the listed rows: the id of each beside its text. */
  lemma HybridPairs(rows: seq<ChunkRow>, kb: Kb)
    ensures var list, built := ListChunks(rows, kb), BuildHybrid(rows, kb);
            && |built.ids| == |built.corpus| == |list|
            && forall i :: 0 <= i < |list| ==> built.ids[i] == list[i].id && built.corpus[i] == list[i].content
  {
  }

  // ---------- what a search returns ----------

  /** The store is asked for the points of the KB, all of them and no others. */
  lemma KbPointsExact(points: map<Id, Point>, kb: Kb)
    ensures forall id :: id in KbPoints(points, kb) <==> id in points && points[id].kb == kb
    ensures forall id :: id in KbPoints(points, kb) ==> KbPoints(points, kb)[id] == points[id]
  {
  }

  /** The reranker is given the text of each hit's row, or "" for a hit without a row. */
  lemma TextOfHit(rows: seq<ChunkRow>, hits: seq<HybridHit>, i: nat)
    requires UniqueIds(rows) && i < |hits|
    ensures |HitTexts(rows, hits)| == |hits|
    ensures forall r :: r in rows && r.id == hits[i].chunkId ==> HitTexts(rows, hits)[i] == r.content
    ensures !HasRow(rows, hits[i].chunkId) ==> HitTexts(rows, hits)[i] == ""
  {
    hide ContentMap;
    MapsOf(rows);
    MapsAreRows(rows);
  }

  /** Result i is made of hit at[i]: its id, its own rerank score, its dense score or 0; the scores do
      not rise, equal ones keep the order of the hits, and what is left out is behind. */
  ghost predicate IsAnswer(hits: seq<HybridHit>, scores: seq<real>, limit: nat, at: seq<nat>,
                           answer: seq<SearchResult>) {
    && |hits| == |scores| && |answer| == |at| == Min(limit, |hits|) && NoDuplicates(at)
    && (forall i :: 0 <= i < |at| ==> at[i] < |hits| && MadeOf(answer[i], hits[at[i]], scores[at[i]]))
    && (forall i, j :: 0 <= i < j < |at| ==>
          answer[i].score > answer[j].score || (answer[i].score == answer[j].score && at[i] < at[j]))
    && (forall i, m: nat :: 0 <= i < |at| && m < |hits| && m !in at ==>
          answer[i].score > scores[m] || (answer[i].score == scores[m] && at[i] < m))
  }

  ghost predicate MadeOf(result: SearchResult, hit: HybridHit, score: real) {
    && result.chunkId == hit.chunkId && result.score == score
    && (hit.denseScore.Some? ==> result.denseScore == hit.denseScore.value)
    && (hit.denseScore.None? ==> result.denseScore == 0.0)
  }

  lemma TakeReranking<T>(hits: seq<T>, scores: seq<real>, limit: nat, at: seq<nat>, r: seq<Pair<T>>, n: nat)
    requires IsReranking(hits, scores, limit, at, r)
    ensures IsReranking(hits, scores, Min(limit, n), Take(at, n), Take(r, n))
  {
    var first := Take(at, n);
    TakenAt(at, n);
    TakenAt(r, n);
    hide Take;
    forall i, m: nat | 0 <= i < |first| && m < |hits| && m !in first
      ensures scores[at[i]] > scores[m] || (scores[at[i]] == scores[m] && at[i] < m)
    {
      if m in at {
        var k :| 0 <= k < |at| && at[k] == m;
      }
    }
  }

  lemma TakenAt<T>(s: seq<T>, n: nat)
    ensures |Take(s, n)| == Min(n, |s|)
    ensures forall i :: 0 <= i < |Take(s, n)| ==> Take(s, n)[i] == s[i] && s[i] in Take(s, n)
  {
    assert forall i :: 0 <= i < |Take(s, n)| ==> Take(s, n)[i] in Take(s, n);
  }

  lemma ResultsMade(rows: seq<ChunkRow>, seqs: Sequences, top: seq<Pair<HybridHit>>, n: nat)
    ensures var results := Take(ResultsOf(rows, seqs, top), n);
            && |results| == |Take(top, n)|
            && forall i :: 0 <= i < |results| ==> MadeOf(results[i], Take(top, n)[i].hit, Take(top, n)[i].score)
  {
    hide Parent.Expanded, ContentMap, DocMap;
  }

  lemma AnswerScores(e: Engine, s: State, hybrid: Hybrid, seqs: Sequences, kb: Kb, query: string, topK: nat)
    returns (at: seq<nat>)
    requires Lawful(e) && |hybrid.ids| == |hybrid.corpus|
    ensures var hits := Hits(e, s, hybrid, kb, query);
            IsAnswer(hits, e.rerank(query, HitTexts(s.rows, hits)), Min(e.rerankTopK, topK), at,
                     Answer(e, s, hybrid, seqs, kb, query, topK))
  {
    hide Hits, Rerank, ResultsOf, HitTexts, Take, MadeOf;
    var hits := Hits(e, s, hybrid, kb, query);
    var texts := HitTexts(s.rows, hits);
    TextCount(s.rows, hits);
    var scores := e.rerank(query, texts);
    var top := Rerank(hits, scores, e.rerankTopK);
    var all := RerankExact(hits, scores, e.rerankTopK);
    at := Take(all, topK);
    TakeReranking(hits, scores, e.rerankTopK, all, top, topK);
    ResultsMade(s.rows, seqs, top, topK);
    var answer, r := Answer(e, s, hybrid, seqs, kb, query, topK), Take(top, topK);
    forall i | 0 <= i < |at| ensures answer[i].score == scores[at[i]] && MadeOf(answer[i], hits[at[i]], scores[at[i]]) {
      assert r[i] == Pair(hits[at[i]], scores[at[i]]);
      ScoreOf(answer[i], hits[at[i]], scores[at[i]]);
    }
  }

  lemma TextCount(rows: seq<ChunkRow>, hits: seq<HybridHit>)
    ensures |HitTexts(rows, hits)| == |hits|
  {
  }

  lemma ScoreOf(result: SearchResult, hit: HybridHit, score: real)
    requires MadeOf(result, hit, score)
    ensures result.score == score && result.chunkId == hit.chunkId
  {
  }

  /** The dense score of an id among the store's answers: that of its entry, or 0 if it has none. */
  ghost predicate IsDenseScore(dense: seq<Item>, id: Id, v: real) {
    || (exists j :: 0 <= j < |dense| && dense[j] == Item(id, v) && LastAt(dense, j))
    || (v == 0.0 && forall j :: 0 <= j < |dense| ==> dense[j].id != id)
  }

  lemma DenseOfHit(dense: seq<Item>, sparse: seq<Id>, k: nat, limit: nat, i: nat, result: SearchResult, score: real)
    requires i < |FusedHits(dense, sparse, k, limit)|
    requires MadeOf(result, FusedHits(dense, sparse, k, limit)[i], score)
    ensures IsDenseScore(dense, result.chunkId, result.denseScore)
  {
    hide FusedRanking, Lookup;
    var hit := FusedHits(dense, sparse, k, limit)[i];
    LookupExact(dense, hit.chunkId);
  }

  lemma HitsAreRanked(dense: seq<Item>, sparse: seq<Id>, k: nat, limit: nat)
    ensures var hits, ranked := FusedHits(dense, sparse, k, limit), FusedRanking([Ids(dense), sparse], k, limit);
            && AreBest([Ids(dense), sparse], k, limit, ranked) && |hits| == |ranked|
            && forall i :: 0 <= i < |hits| ==> hits[i].chunkId == ranked[i].id && hits[i].score == ranked[i].score
  {
    hide FusedRanking, AreBest, Lookup;
    RankingExact([Ids(dense), sparse], k, limit);
  }

  /** A search, end to end: the candidates are the best of the ids the store and the index rank,
      fused; each result carries the rerank score of its own text and the store's score of its own
      id; and the results are the best candidates by rerank score, at most rerank_top_k and top_k. */
  lemma SearchScores(e: Engine, s: State, kb: Kb, query: string, topK: nat)
    returns (ranked: seq<Item>, hits: seq<HybridHit>, at: seq<nat>)
    requires Lawful(e) && WellFormed(e, s) && Coherent(s) && SearchAnswer(e, s, kb, query, topK).Some?
    ensures var answer := SearchAnswer(e, s, kb, query, topK).value;
            var dense := e.dense(KbPoints(s.points, kb), e.embed(query));
            var list := ListChunks(s.rows, kb);
            var sparse := e.sparse(Contents(list), query);
            && (forall i :: 0 <= i < |sparse| ==> sparse[i] < |list|)
            && var sparseIds := seq(|sparse|, i requires 0 <= i < |sparse| => list[sparse[i]].id);
            && AreBest([Ids(dense), sparseIds], e.rrfK, e.retrievalTopK, ranked)
            && |hits| == |ranked| && (forall i :: 0 <= i < |hits| ==> hits[i].chunkId == ranked[i].id)
            && IsAnswer(hits, e.rerank(query, HitTexts(s.rows, hits)), Min(e.rerankTopK, topK), at, answer)
            && (forall i :: 0 <= i < |answer| ==> IsDenseScore(dense, answer[i].chunkId, answer[i].denseScore))
  {
    hide FusedHits, FusedRanking, Answer, IsAnswer, IsDenseScore, AreBest, ListChunks, KbPoints, Indexable, Ids,
         HitTexts, SearchAnswer, BuildSequences;
    var hybrid, seqs := BuildHybrid(s.rows, kb), BuildSequences(s.rows, kb);
    HybridPairs(s.rows, kb);
    CoherentAnswer(e, s, kb, query, topK);
    var dense := e.dense(KbPoints(s.points, kb), e.embed(query));
    var list := ListChunks(s.rows, kb);
    var sparse := e.sparse(Contents(list), query);
    SparseAt(e, s.rows, kb, query);
    var sparseIds := SparseIds(e, hybrid, query);
    hits := Hits(e, s, hybrid, kb, query);
    ranked := FusedRanking([Ids(dense), sparseIds], e.rrfK, e.retrievalTopK);
    HitsAreRanked(dense, sparseIds, e.rrfK, e.retrievalTopK);
    at := AnswerScores(e, s, hybrid, seqs, kb, query, topK);
    var answer := Answer(e, s, hybrid, seqs, kb, query, topK);
    var scores := e.rerank(query, HitTexts(s.rows, hits));
    AnswerMade(hits, scores, Min(e.rerankTopK, topK), at, answer);
    forall i | 0 <= i < |answer| ensures IsDenseScore(dense, answer[i].chunkId, answer[i].denseScore) {
      DenseOfHit(dense, sparseIds, e.rrfK, e.retrievalTopK, at[i], answer[i], scores[at[i]]);
    }
  }

  lemma AnswerMade(hits: seq<HybridHit>, scores: seq<real>, limit: nat, at: seq<nat>, answer: seq<SearchResult>)
    requires IsAnswer(hits, scores, limit, at, answer)
    ensures |answer| == |at| && |hits| == |scores|
    ensures forall i :: 0 <= i < |at| ==> at[i] < |hits| && MadeOf(answer[i], hits[at[i]], scores[at[i]])
  {
  }

  lemma SparseAt(e: Engine, rows: seq<ChunkRow>, kb: Kb, query: string)
    requires Lawful(e)
    ensures var list, hybrid := ListChunks(rows, kb), BuildHybrid(rows, kb);
            var sparse := e.sparse(Contents(list), query);
            && |hybrid.ids| == |hybrid.corpus| && (forall i :: 0 <= i < |sparse| ==> sparse[i] < |list|)
            && SparseIds(e, hybrid, query) == seq(|sparse|, i requires 0 <= i < |sparse| => list[sparse[i]].id)
  {
    hide ListChunks;
    var sparse := e.sparse(Contents(ListChunks(rows, kb)), query);
    assert forall i :: 0 <= i < |sparse| ==> sparse[i] in sparse;
  }

  /** What a search caches: the retriever of the KB unless building it raises, and, if there are hits,
      its chunk sequences. What is cached already stays, and so does everything of other KBs. */
  lemma SearchFillsCaches(e: Engine, s: State, kb: Kb, query: string)
    requires Lawful(e) && WellFormed(e, s)
    ensures var s' := SearchState(e, s, kb, query);
            var built := BuildHybrid(s.rows, kb);
            && s' == s.(hybrids := s'.hybrids, sequences := s'.sequences)
            && s'.hybrids == (if kb in s.hybrids || !Indexable(e, built.corpus) then s.hybrids
                              else s.hybrids[kb := built])
            && (kb !in s'.hybrids ==> s' == s)
            && (kb in s'.hybrids ==>
                  s'.sequences == if kb !in s.sequences && Hits(e, s, s'.hybrids[kb], kb, query) != []
                                  then s.sequences[kb := BuildSequences(s.rows, kb)] else s.sequences)
  {
    hide BuildHybrid, BuildSequences, Indexable, FusedHits, KbPoints, SparseIds;
    FillKeepsForm(e, s, kb);
  }

  // ---------- what an upload does ----------

  ghost predicate SameOthers(docs: map<Doc, DocRow>, docs': map<Doc, DocRow>, doc: Doc) {
    forall d :: d != doc ==> (d in docs' <==> d in docs) && (d in docs ==> docs'[d] == docs[d])
  }

  /** How an upload ends: a known content is found; a text without chunks is refused; anything else is
      ingested unless something raises. From the creation of the document on there is a row for it,
      marked failed exactly if something raised and that could be recorded. */
  lemma UploadOutcome(e: Engine, s: State, kb: Kb, text: string, doc: Doc, ids: seq<Id>, fault: IngestFault)
    requires |ids| == |e.chunk(text)|
    ensures var (s', result) := IngestFile(e, s, kb, text, doc, ids, fault);
            var known := exists d :: d in s.docs && s.docs[d].kb == kb && s.docs[d].hash == text;
            && (result == Existing <==> known)
            && (result == Empty <==> !known && e.chunk(text) == [])
            && (result == Ingested <==> !known && e.chunk(text) != [] && fault.NoFault?)
            && (result in {Existing, Empty} || fault.CreateRaises? ==> s' == s)
            && (result !in {Existing, Empty} && !fault.CreateRaises? ==>
                  doc in s'.docs && s'.docs[doc] == DocRow(kb, text, result == Raised && fault.marked)
                  && SameOthers(s.docs, s'.docs, doc))
  {
    hide NewRows, SetChunks, Upsert, Take;
  }

  /** The rows and the first n points of a document with the given chunks were added to s; nothing else
      of the rows and points was touched. */
  ghost predicate Added(e: Engine, s: State, s': State, kb: Kb, doc: Doc, ids: seq<Id>, chunks: seq<string>, n: nat) {
    && |ids| == |chunks| && |s'.rows| == |s.rows| + |ids|
    && (forall r :: r in s'.rows <==>
          r in s.rows || exists i :: 0 <= i < |ids| && r == ChunkRow(ids[i], kb, doc, i, chunks[i]))
    && (forall id :: id in s.points ==> id in s'.points && s'.points[id] == s.points[id])
    && (forall id :: id in s'.points ==> id in s.points || exists i :: 0 <= i < |ids| && i < n && ids[i] == id)
    && (forall i :: 0 <= i < |ids| && i < n ==>
          ids[i] in s'.points && s'.points[ids[i]] == Point(e.embed(chunks[i]), kb, doc))
  }

  lemma {:induction false} WithoutNone(rows: seq<ChunkRow>, doc: Doc)
    requires forall r :: r in rows ==> r.doc != doc
    ensures WithoutDoc(rows, doc) == rows
    decreases |rows|
  {
    if rows != [] {
      var init, last := rows[..|rows| - 1], rows[|rows| - 1];
      assert rows == init + [last] && last in rows;
      WithoutNone(init, doc);
    }
  }

  /** set_chunks replaces the rows of the document by the given ones and keeps all others. */
  lemma SetChunksReplaces(rows: seq<ChunkRow>, doc: Doc, added: seq<ChunkRow>, r: ChunkRow)
    ensures multiset(SetChunks(rows, doc, added))[r]
            == (if r.doc == doc then 0 else multiset(rows)[r]) + multiset(added)[r]
  {
    WithoutCounts(rows, doc, r);
  }

  lemma RowsAdded(s: State, kb: Kb, doc: Doc, ids: seq<Id>, chunks: seq<string>)
    requires Tidy(s) && |ids| == |chunks| && Fresh(s, doc, ids)
    ensures var rows := SetChunks(s.rows, doc, NewRows(doc, kb, ids, chunks));
            && |rows| == |s.rows| + |ids|
            && forall r :: r in rows <==>
                 r in s.rows || exists i :: 0 <= i < |ids| && r == ChunkRow(ids[i], kb, doc, i, chunks[i])
  {
    hide WithoutDoc, UniqueIds;
    forall r | r in s.rows ensures r.doc != doc {
      assert OwnedRow(s, r);
    }
    WithoutNone(s.rows, doc);
    var added := NewRows(doc, kb, ids, chunks);
    assert forall i :: 0 <= i < |ids| ==> added[i] == ChunkRow(ids[i], kb, doc, i, chunks[i]);
    forall r ensures r in added <==> exists i :: 0 <= i < |ids| && r == ChunkRow(ids[i], kb, doc, i, chunks[i]) {
      if i :| 0 <= i < |ids| && r == ChunkRow(ids[i], kb, doc, i, chunks[i]) {
        assert added[i] == r;
      }
    }
  }

  lemma PointsAdded(e: Engine, s: State, kb: Kb, doc: Doc, ids: seq<Id>, chunks: seq<string>, n: nat)
    requires Tidy(s) && |ids| == |chunks| && Fresh(s, doc, ids)
    ensures var points := Upsert(s.points, Take(NewRows(doc, kb, ids, chunks), n), e.embed);
            && (forall id :: id in s.points ==> id in points && points[id] == s.points[id])
            && (forall id :: id in points ==> id in s.points || exists i :: 0 <= i < |ids| && i < n && ids[i] == id)
            && (forall i :: 0 <= i < |ids| && i < n ==>
                  ids[i] in points && points[ids[i]] == Point(e.embed(chunks[i]), kb, doc))
  {
    hide Upsert, UniqueIds;
    var added := Take(NewRows(doc, kb, ids, chunks), n);
    UpsertEffect(s.points, added, e.embed);
    var points := Upsert(s.points, added, e.embed);
    TakenRows(doc, kb, ids, chunks, n);
    forall id | id in s.points ensures !HasRow(added, id) {
      assert OwnedPoint(s, id, s.points[id]);
    }
    forall i | 0 <= i < |ids| && i < n
      ensures ids[i] in points && points[ids[i]] == Point(e.embed(chunks[i]), kb, doc)
    {
      assert added[i] in added && HasRow(added, ids[i]);
    }
  }

  lemma TakenRows(doc: Doc, kb: Kb, ids: seq<Id>, chunks: seq<string>, n: nat)
    requires |ids| == |chunks|
    ensures var added := Take(NewRows(doc, kb, ids, chunks), n);
            && |added| == Min(n, |ids|)
            && forall i :: 0 <= i < |added| ==> added[i] == ChunkRow(ids[i], kb, doc, i, chunks[i])
  {
  }

  /** What an upload writes: if it is ingested, the rows and points of all its chunks, and the KB is no
      longer cached; if the store raised, the rows and as many points as it had written, and the
      caches stay; otherwise no row, no point and no cache changes. */
  lemma UploadWrites(e: Engine, s: State, kb: Kb, text: string, doc: Doc, ids: seq<Id>, fault: IngestFault)
    requires Tidy(s) && |ids| == |e.chunk(text)| && Fresh(s, doc, ids)
    ensures var (s', result) := IngestFile(e, s, kb, text, doc, ids, fault);
            && (result == Ingested ==> Added(e, s, s', kb, doc, ids, e.chunk(text), |ids|)
                                       && s'.hybrids == s.hybrids - {kb} && s'.sequences == s.sequences - {kb})
            && (result == Raised && fault.UpsertRaises? ==>
                  Added(e, s, s', kb, doc, ids, e.chunk(text), fault.written)
                  && s'.hybrids == s.hybrids && s'.sequences == s.sequences)
            && (result != Ingested && !(result == Raised && fault.UpsertRaises?) ==>
                  s' == s.(docs := s'.docs))
  {
    hide NewRows, SetChunks, Upsert, Take, Fresh, Tidy, FindByHash, Added;
    var s' := IngestFile(e, s, kb, text, doc, ids, fault).0;
    var chunks := e.chunk(text);
    var added := NewRows(doc, kb, ids, chunks);
    TakeAll(doc, kb, ids, chunks);
    if s'.rows == SetChunks(s.rows, doc, added) {
      if s'.points == Upsert(s.points, added, e.embed) {
        WritesAdd(e, s, s', kb, doc, ids, chunks, |ids|);
      }
      if fault.UpsertRaises? && s'.points == Upsert(s.points, Take(added, fault.written), e.embed) {
        WritesAdd(e, s, s', kb, doc, ids, chunks, fault.written);
      }
    }
  }

  lemma WritesAdd(e: Engine, s: State, s': State, kb: Kb, doc: Doc, ids: seq<Id>, chunks: seq<string>, n: nat)
    requires Tidy(s) && |ids| == |chunks| && Fresh(s, doc, ids)
    requires s'.rows == SetChunks(s.rows, doc, NewRows(doc, kb, ids, chunks))
    requires s'.points == Upsert(s.points, Take(NewRows(doc, kb, ids, chunks), n), e.embed)
    ensures Added(e, s, s', kb, doc, ids, chunks, n)
  {
    hide NewRows, SetChunks, Upsert, Take, Fresh, Tidy;
    RowsAdded(s, kb, doc, ids, chunks);
    PointsAdded(e, s, kb, doc, ids, chunks, n);
  }

  lemma TakeAll(doc: Doc, kb: Kb, ids: seq<Id>, chunks: seq<string>)
    requires |ids| == |chunks|
    ensures Take(NewRows(doc, kb, ids, chunks), |ids|) == NewRows(doc, kb, ids, chunks)
  {
  }

  // ---------- what a deletion does ----------

  /** A deletion of a document of the KB removes its row, its chunks, its points and the caches of the
      KB, and nothing else; any other deletion changes nothing. */
  lemma DeletionRemoves(s: State, kb: Kb, doc: Doc)
    requires Tidy(s)
    ensures var s' := DeleteRequest(s, kb, doc);
            var own := doc in s.docs && s.docs[doc].kb == kb;
            && (!own ==> s' == s)
            && (own ==>
                  && doc !in s'.docs
                  && SameOthers(s.docs, s'.docs, doc)
                  && (forall r :: multiset(s'.rows)[r] == if r.doc == doc then 0 else multiset(s.rows)[r])
                  && (forall id :: id in s'.points <==> id in s.points && s.points[id].doc != doc)
                  && (forall id :: id in s'.points ==> s'.points[id] == s.points[id])
                  && (forall k :: k in s'.hybrids <==> k in s.hybrids && k != kb)
                  && (forall k :: k in s'.sequences <==> k in s.sequences && k != kb))
  {
    hide WithoutDoc, UniqueIds;
    if doc in s.docs && s.docs[doc].kb == kb {
      forall id | id in s.points ensures s.points[id].doc == doc ==> s.points[id].kb == kb {
        assert OwnedPoint(s, id, s.points[id]);
      }
      forall r ensures multiset(WithoutDoc(s.rows, doc))[r] == if r.doc == doc then 0 else multiset(s.rows)[r] {
        WithoutCounts(s.rows, doc, r);
      }
    }
  }

  lemma {:induction false} WithoutCounts(rows: seq<ChunkRow>, doc: Doc, r: ChunkRow)
    ensures multiset(WithoutDoc(rows, doc))[r] == if r.doc == doc then 0 else multiset(rows)[r]
    decreases |rows|
  {
    if rows != [] {
      var init, last := rows[..|rows| - 1], rows[|rows| - 1];
      assert rows == init + [last];
      Snoc(init, last, "", doc);
      hide WithoutDoc;
      WithoutCounts(init, doc, r);
    }
  }
}
