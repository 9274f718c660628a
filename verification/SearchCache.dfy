/** core/retrieval/search.py with the parts of core/storage/registry.py and core/storage/vector.py
    it changes: the per-KB caches against the registry they are built from. */
module SearchCache {
  import opened Bounds
  import opened Wrappers
  import opened Sorting
  import opened Fusion
  import Parent

  type Kb = string
  type Doc = string
  type Vec = seq<real>

  datatype ChunkRow = ChunkRow(id: Id, kb: Kb, doc: Doc, index: nat, content: string)

  datatype DocRow = DocRow(kb: Kb, hash: string, failed: bool)

  datatype Point = Point(vec: Vec, kb: Kb, doc: Doc)

  /** The cached hybrid retriever: chunk ids and the corpus its BM25 index is built from. */
  datatype Hybrid = Hybrid(ids: seq<Id>, corpus: seq<string>)

  /** The cached chunk sequence of a KB. */
  datatype Sequences = Sequences(allIds: seq<Id>, ordered: map<Id, string>, docMap: map<Id, Doc>)

  /** `issued` holds every chunk id ever handed out, with the document it was handed out for. */
  datatype State = State(docs: map<Doc, DocRow>, rows: seq<ChunkRow>, points: map<Id, Point>,
                         hybrids: map<Kb, Hybrid>, sequences: map<Kb, Sequences>, issued: map<Id, Doc>)

  /** The foreign parts of a search. `dense` ranks the points of one KB, `sparse` ranks the
      documents of an indexed corpus. */
  datatype Engine = Engine(chunk: string -> seq<string>, embed: string -> Vec, tokenize: string -> seq<string>,
                           dense: (map<Id, Point>, Vec) -> seq<Item>, sparse: (seq<string>, string) -> seq<nat>,
                           rerank: (string, seq<string>) -> seq<real>,
                           rrfK: nat, retrievalTopK: nat, rerankTopK: nat)

  const PARENT_SIZE := 2048

  ghost predicate Lawful(e: Engine) {
    && (forall points, v, item :: item in e.dense(points, v) ==> item.id in points)
    && (forall corpus, q, i :: i in e.sparse(corpus, q) ==> i < |corpus|)
    && (forall q, docs :: |e.rerank(q, docs)| == |docs|)
  }

  // ---------- the registry ----------

  function OfKb(rows: seq<ChunkRow>, kb: Kb): seq<ChunkRow> {
    if rows == [] then []
    else OfKb(rows[..|rows| - 1], kb) + if rows[|rows| - 1].kb == kb then [rows[|rows| - 1]] else []
  }

  function WithoutDoc(rows: seq<ChunkRow>, doc: Doc): seq<ChunkRow> {
    if rows == [] then []
    else WithoutDoc(rows[..|rows| - 1], doc) + if rows[|rows| - 1].doc == doc then [] else [rows[|rows| - 1]]
  }

  /** order_by(doc_id, index) */
  predicate RowBefore(a: ChunkRow, b: ChunkRow) {
    LexLess(a.doc, b.doc) || (a.doc == b.doc && a.index < b.index)
  }

  function ListChunks(rows: seq<ChunkRow>, kb: Kb): seq<ChunkRow> {
    SortBy(OfKb(rows, kb), RowBefore)
  }

  function RowIds(rows: seq<ChunkRow>): seq<Id> {
    seq(|rows|, i requires 0 <= i < |rows| => rows[i].id)
  }

  function Contents(rows: seq<ChunkRow>): seq<string> {
    seq(|rows|, i requires 0 <= i < |rows| => rows[i].content)
  }

  function ContentMap(rows: seq<ChunkRow>): map<Id, string> {
    if rows == [] then map[] else ContentMap(rows[..|rows| - 1])[rows[|rows| - 1].id := rows[|rows| - 1].content]
  }

  function DocMap(rows: seq<ChunkRow>): map<Id, Doc> {
    if rows == [] then map[] else DocMap(rows[..|rows| - 1])[rows[|rows| - 1].id := rows[|rows| - 1].doc]
  }

  function BuildHybrid(rows: seq<ChunkRow>, kb: Kb): Hybrid {
    Hybrid(RowIds(ListChunks(rows, kb)), Contents(ListChunks(rows, kb)))
  }

  /** Ids are primary keys, so the rows with the listed ids are the listed rows. */
  function BuildSequences(rows: seq<ChunkRow>, kb: Kb): Sequences {
    var list := ListChunks(rows, kb);
    Sequences(RowIds(list), ContentMap(list), DocMap(list))
  }

  function NewRows(doc: Doc, kb: Kb, ids: seq<Id>, chunks: seq<string>): seq<ChunkRow>
    requires |ids| == |chunks|
  {
    seq(|ids|, i requires 0 <= i < |ids| => ChunkRow(ids[i], kb, doc, i, chunks[i]))
  }

  /** set_chunks: the document's rows are replaced. */
  function SetChunks(rows: seq<ChunkRow>, doc: Doc, added: seq<ChunkRow>): seq<ChunkRow> {
    WithoutDoc(rows, doc) + added
  }

  function FindByHash(docs: map<Doc, DocRow>, kb: Kb, hash: string): bool {
    exists d :: d in docs && docs[d].kb == kb && docs[d].hash == hash
  }

  // ---------- the vector store ----------

  function PointOf(embed: string -> Vec, row: ChunkRow): Point {
    Point(embed(row.content), row.kb, row.doc)
  }

  function Upsert(points: map<Id, Point>, rows: seq<ChunkRow>, embed: string -> Vec): map<Id, Point> {
    if rows == [] then points
    else
      var last := rows[|rows| - 1];
      Upsert(points, rows[..|rows| - 1], embed)[last.id := PointOf(embed, last)]
  }

  function DeleteByDocument(points: map<Id, Point>, kb: Kb, doc: Doc): map<Id, Point> {
    map id | id in points && !(points[id].kb == kb && points[id].doc == doc) :: points[id]
  }

  function KbPoints(points: map<Id, Point>, kb: Kb): map<Id, Point> {
    map id | id in points && points[id].kb == kb :: points[id]
  }

  // ---------- the operations ----------

  /** Building the index of a corpus divides by its average length: it raises unless the corpus is
      empty or has a token. */
  predicate Indexable(e: Engine, corpus: seq<string>) {
    corpus == [] || exists i :: 0 <= i < |corpus| && e.tokenize(corpus[i]) != []
  }

  function Invalidate(s: State, kb: Kb): State {
    s.(hybrids := s.hybrids - {kb}, sequences := s.sequences - {kb})
  }

  /** A miss builds the retriever; if that raises, nothing is cached. */
  function GetHybrid(e: Engine, s: State, kb: Kb): State {
    var built := BuildHybrid(s.rows, kb);
    if kb in s.hybrids || !Indexable(e, built.corpus) then s else s.(hybrids := s.hybrids[kb := built])
  }

  function ChunkSequences(s: State, kb: Kb): State {
    if kb in s.sequences then s else s.(sequences := s.sequences[kb := BuildSequences(s.rows, kb)])
  }

  /** What goes wrong while a file is ingested: creating the document; the embedder; committing the
      rows; or the store, after it has written some of the points. A failure after the document was
      created is recorded on it, unless that raises too. */
  datatype IngestFault =
    | NoFault
    | CreateRaises
    | EmbedRaises(marked: bool)
    | SetChunksRaises(marked: bool)
    | UpsertRaises(written: nat, marked: bool)

  datatype IngestResult = Existing | Empty | Ingested | Raised

  /** ingest_file, for the parsed text of a file and fresh ids. */
  function IngestFile(e: Engine, s: State, kb: Kb, text: string, doc: Doc, ids: seq<Id>, fault: IngestFault)
    : (State, IngestResult)
    requires |ids| == |e.chunk(text)|
  {
    var chunks := e.chunk(text);
    if FindByHash(s.docs, kb, text) then (s, Existing)
    else if chunks == [] then (s, Empty)
    else
      var rows := NewRows(doc, kb, ids, chunks);
      var issued := s.issued + map id | id in ids :: doc;
      match fault
      case CreateRaises => (s, Raised)
      case EmbedRaises(marked) => (s.(docs := s.docs[doc := DocRow(kb, text, marked)]), Raised)
      case SetChunksRaises(marked) => (s.(docs := s.docs[doc := DocRow(kb, text, marked)]), Raised)
      case UpsertRaises(n, marked) =>
        (s.(docs := s.docs[doc := DocRow(kb, text, marked)], rows := SetChunks(s.rows, doc, rows),
            points := Upsert(s.points, Take(rows, n), e.embed), issued := issued), Raised)
      case NoFault =>
        var s' := s.(docs := s.docs[doc := DocRow(kb, text, false)], rows := SetChunks(s.rows, doc, rows),
                     points := Upsert(s.points, rows, e.embed), issued := issued);
        (Invalidate(s', kb), Ingested)
  }

  /** delete_document: the points first, then the rows of the document whatever their KB, and the
      document if it belongs to the KB. */
  function DeleteDocument(s: State, kb: Kb, doc: Doc): State {
    var docs := if doc in s.docs && s.docs[doc].kb == kb then s.docs - {doc} else s.docs;
    Invalidate(s.(points := DeleteByDocument(s.points, kb, doc), rows := WithoutDoc(s.rows, doc), docs := docs), kb)
  }

  /** The request to delete a document: answered by 404, with nothing changed, unless the document
      belongs to the KB. */
  function DeleteRequest(s: State, kb: Kb, doc: Doc): State {
    if doc in s.docs && s.docs[doc].kb == kb then DeleteDocument(s, kb, doc) else s
  }

  datatype SearchResult = SearchResult(chunkId: Id, docId: Doc, score: real, denseScore: real, content: string,
                                       expanded: string)

  /** The sparse candidates by chunk id. */
  function SparseIds(e: Engine, hybrid: Hybrid, query: string): seq<Id>
    requires Lawful(e) && |hybrid.ids| == |hybrid.corpus|
  {
    var sparse := e.sparse(hybrid.corpus, query);
    assert forall i :: 0 <= i < |sparse| ==> sparse[i] in sparse;
    seq(|sparse|, i requires 0 <= i < |sparse| => hybrid.ids[sparse[i]])
  }

  ghost function Hits(e: Engine, s: State, hybrid: Hybrid, kb: Kb, query: string): seq<HybridHit>
    requires Lawful(e) && |hybrid.ids| == |hybrid.corpus|
  {
    FusedHits(e.dense(KbPoints(s.points, kb), e.embed(query)), SparseIds(e, hybrid, query), e.rrfK, e.retrievalTopK)
  }

  function HitTexts(rows: seq<ChunkRow>, hits: seq<HybridHit>): seq<string> {
    var contents := ContentMap(rows);
    seq(|hits|, i requires 0 <= i < |hits| => GetOr(contents, hits[i].chunkId, ""))
  }

  function ResultOf(rows: seq<ChunkRow>, seqs: Sequences, hit: HybridHit, score: real): SearchResult
  {
    SearchResult(hit.chunkId, GetOr(DocMap(rows), hit.chunkId, ""), score,
           if hit.denseScore.Some? then hit.denseScore.value else 0.0, GetOr(ContentMap(rows), hit.chunkId, ""),
           Parent.Expanded(seqs.allIds, seqs.ordered, seqs.docMap, hit.chunkId, PARENT_SIZE))
  }

  function ResultsOf(rows: seq<ChunkRow>, seqs: Sequences, top: seq<Pair<HybridHit>>): seq<SearchResult>
  {
    seq(|top|, i requires 0 <= i < |top| => ResultOf(rows, seqs, top[i].hit, top[i].score))
  }

  /** The results a search returns, given the two cached structures it uses. */
  ghost function Answer(e: Engine, s: State, hybrid: Hybrid, seqs: Sequences, kb: Kb, query: string, topK: nat)
    : seq<SearchResult>
    requires Lawful(e) && |hybrid.ids| == |hybrid.corpus|
  {
    var hits := Hits(e, s, hybrid, kb, query);
    var top := Rerank(hits, e.rerank(query, HitTexts(s.rows, hits)), e.rerankTopK);
    Take(ResultsOf(s.rows, seqs, top), topK)
  }

  lemma NoHitsNoAnswer(e: Engine, s: State, hybrid: Hybrid, seqs: Sequences, kb: Kb, query: string, topK: nat)
    requires Lawful(e) && |hybrid.ids| == |hybrid.corpus|
    requires Hits(e, s, hybrid, kb, query) == []
    ensures Answer(e, s, hybrid, seqs, kb, query, topK) == []
  {
    hide Hits;
    SortElements(Zip<HybridHit>([], []), PairAbove);
  }

  /** Every cached retriever has an index. */
  ghost predicate WellFormed(e: Engine, s: State) {
    forall kb :: kb in s.hybrids ==> |s.hybrids[kb].ids| == |s.hybrids[kb].corpus| && Indexable(e, s.hybrids[kb].corpus)
  }

  /** search: the chunk sequences are only needed, and cached, when there are hits. */
  ghost function SearchState(e: Engine, s: State, kb: Kb, query: string): (r: State)
    requires Lawful(e) && WellFormed(e, s)
    ensures WellFormed(e, r)
  {
    FillKeepsForm(e, s, kb);
    var s' := GetHybrid(e, s, kb);
    if kb !in s'.hybrids || Hits(e, s', s'.hybrids[kb], kb, query) == [] then s' else ChunkSequences(s', kb)
  }

  /** What a search returns; None if building the retriever raises. */
  ghost function SearchAnswer(e: Engine, s: State, kb: Kb, query: string, topK: nat): Option<seq<SearchResult>>
    requires Lawful(e) && WellFormed(e, s)
  {
    FillKeepsForm(e, s, kb);
    var s' := GetHybrid(e, s, kb);
    if kb !in s'.hybrids then None
    else Some(Answer(e, s, s'.hybrids[kb], ChunkSequences(s, kb).sequences[kb], kb, query, topK))
  }

  // ---------- coherence ----------

  /** Every cached structure equals a rebuild from the registry. */
  ghost predicate Coherent(s: State) {
    && (forall kb :: kb in s.hybrids ==> s.hybrids[kb] == BuildHybrid(s.rows, kb))
    && (forall kb :: kb in s.sequences ==> s.sequences[kb] == BuildSequences(s.rows, kb))
  }

  /** Chunk ids are primary keys. */
  ghost predicate UniqueIds(rows: seq<ChunkRow>) {
    forall r, r' :: r in rows && r' in rows && r.id == r'.id ==> r == r'
  }

  ghost predicate OwnedRow(s: State, r: ChunkRow) {
    && r.doc in s.docs && s.docs[r.doc].kb == r.kb
    && r.id in s.issued && s.issued[r.id] == r.doc
  }

  ghost predicate OwnedPoint(s: State, id: Id, p: Point) {
    && p.doc in s.docs && s.docs[p.doc].kb == p.kb
    && id in s.issued && s.issued[id] == p.doc
  }

  /** Rows and points belong to existing documents of their KB, under the ids handed out for them. */
  ghost predicate Tidy(s: State) {
    && UniqueIds(s.rows)
    && (forall r :: r in s.rows ==> OwnedRow(s, r))
    && (forall id :: id in s.points ==> OwnedPoint(s, id, s.points[id]))
  }

  ghost predicate HasRow(rows: seq<ChunkRow>, id: Id) {
    exists r :: r in rows && r.id == id
  }

  /** The points are exactly the rows' points. */
  ghost predicate Mirrored(e: Engine, s: State) {
    && (forall r :: r in s.rows ==> r.id in s.points && s.points[r.id] == PointOf(e.embed, r))
    && (forall id :: id in s.points ==> HasRow(s.rows, id))
  }

  lemma {:induction false} OfKbConcat(a: seq<ChunkRow>, b: seq<ChunkRow>, kb: Kb)
    ensures OfKb(a + b, kb) == OfKb(a, kb) + OfKb(b, kb)
    decreases |b|
  {
    if b == [] {
      assert a + b == a;
    } else {
      var init := b[..|b| - 1];
      OfKbConcat(a, init, kb);
      assert (a + b)[..|a + b| - 1] == a + init;
    }
  }

  lemma {:induction false} OfKbMembers(rows: seq<ChunkRow>, kb: Kb)
    ensures forall r :: r in OfKb(rows, kb) <==> r in rows && r.kb == kb
    decreases |rows|
  {
    if rows != [] {
      OfKbMembers(rows[..|rows| - 1], kb);
      assert rows == rows[..|rows| - 1] + [rows[|rows| - 1]];
    }
  }

  lemma {:induction false} WithoutDocMembers(rows: seq<ChunkRow>, doc: Doc)
    ensures forall r :: r in WithoutDoc(rows, doc) <==> r in rows && r.doc != doc
    decreases |rows|
  {
    if rows != [] {
      WithoutDocMembers(rows[..|rows| - 1], doc);
      assert rows == rows[..|rows| - 1] + [rows[|rows| - 1]];
    }
  }

  lemma Snoc(rows: seq<ChunkRow>, r: ChunkRow, kb: Kb, doc: Doc)
    ensures OfKb(rows + [r], kb) == OfKb(rows, kb) + if r.kb == kb then [r] else []
    ensures WithoutDoc(rows + [r], doc) == WithoutDoc(rows, doc) + if r.doc == doc then [] else [r]
    ensures OfKb([], kb) == [] && WithoutDoc([], doc) == []
  {
    assert (rows + [r])[..|rows|] == rows;
  }

  ghost predicate HasRowsOf(rows: seq<ChunkRow>, doc: Doc, kb: Kb) {
    exists r :: r in rows && r.doc == doc && r.kb == kb
  }

  lemma HasRowsSnoc(rows: seq<ChunkRow>, r: ChunkRow, doc: Doc, kb: Kb)
    ensures HasRowsOf(rows + [r], doc, kb) <==> HasRowsOf(rows, doc, kb) || (r.doc == doc && r.kb == kb)
  {
    assert r in rows + [r];
    if HasRowsOf(rows, doc, kb) {
      var x :| x in rows && x.doc == doc && x.kb == kb;
      assert x in rows + [r];
    }
  }

  /** Removing a document changes what a KB lists exactly if the KB has rows of it. */
  lemma {:induction false} RemovalIsSeen(rows: seq<ChunkRow>, doc: Doc, kb: Kb)
    ensures |OfKb(WithoutDoc(rows, doc), kb)| <= |OfKb(rows, kb)|
    ensures HasRowsOf(rows, doc, kb) ==> |OfKb(WithoutDoc(rows, doc), kb)| < |OfKb(rows, kb)|
    ensures !HasRowsOf(rows, doc, kb) ==> OfKb(WithoutDoc(rows, doc), kb) == OfKb(rows, kb)
    decreases |rows|
  {
    hide OfKb, WithoutDoc;
    if rows == [] {
      NothingSeen(doc, kb);
    } else {
      hide HasRowsOf;
      var init, last := rows[..|rows| - 1], rows[|rows| - 1];
      RemovalIsSeen(init, doc, kb);
      assert rows == init + [last];
      Snoc(init, last, kb, doc);
      Snoc(WithoutDoc(init, doc), last, kb, doc);
      HasRowsSnoc(init, last, doc, kb);
      assert WithoutDoc(init, doc) + [] == WithoutDoc(init, doc);
    }
  }

  lemma NothingSeen(doc: Doc, kb: Kb)
    ensures OfKb(WithoutDoc([], doc), kb) == [] && OfKb([], kb) == []
  {
  }

  lemma {:induction false} OfKbAll(rows: seq<ChunkRow>, kb: Kb)
    requires forall r :: r in rows ==> r.kb == kb
    ensures OfKb(rows, kb) == rows
    decreases |rows|
  {
    if rows != [] {
      var init, last := rows[..|rows| - 1], rows[|rows| - 1];
      OfKbAll(init, kb);
      assert last in rows;
      assert rows == init + [last];
    }
  }

  lemma {:induction false} OfKbNone(rows: seq<ChunkRow>, kb: Kb)
    requires forall r :: r in rows ==> r.kb != kb
    ensures OfKb(rows, kb) == []
    decreases |rows|
  {
    OfKbMembers(rows, kb);
    if OfKb(rows, kb) != [] {
      HasMember(OfKb(rows, kb));
    }
  }

  lemma ListLength(rows: seq<ChunkRow>, kb: Kb)
    ensures |BuildHybrid(rows, kb).ids| == |BuildHybrid(rows, kb).corpus| == |OfKb(rows, kb)|
    ensures |BuildSequences(rows, kb).allIds| == |OfKb(rows, kb)|
  {
    SortElements(OfKb(rows, kb), RowBefore);
  }

  /** What a KB's structures are built from is its own rows only. */
  lemma BuiltFromOwnRows(rows: seq<ChunkRow>, rows': seq<ChunkRow>, kb: Kb)
    requires OfKb(rows, kb) == OfKb(rows', kb)
    ensures BuildHybrid(rows, kb) == BuildHybrid(rows', kb) && BuildSequences(rows, kb) == BuildSequences(rows', kb)
  {
  }

  lemma LengthsDiffer(rows: seq<ChunkRow>, rows': seq<ChunkRow>, kb: Kb)
    requires |OfKb(rows, kb)| != |OfKb(rows', kb)|
    ensures BuildHybrid(rows, kb) != BuildHybrid(rows', kb) && BuildSequences(rows, kb) != BuildSequences(rows', kb)
  {
    ListLength(rows, kb);
    ListLength(rows', kb);
  }

  lemma {:induction false} MapsAreRows(rows: seq<ChunkRow>)
    ensures forall r :: r in rows ==> r.id in ContentMap(rows) && r.id in DocMap(rows)
    ensures forall id :: id in DocMap(rows) ==> id in ContentMap(rows)
    ensures forall id :: id in ContentMap(rows) ==>
              id in DocMap(rows)
              && exists r :: r in rows && r.id == id && ContentMap(rows)[id] == r.content && DocMap(rows)[id] == r.doc
    decreases |rows|
  {
    if rows != [] {
      var init, last := rows[..|rows| - 1], rows[|rows| - 1];
      MapsAreRows(init);
      assert rows == init + [last];
      forall id | id in ContentMap(rows)
        ensures exists r :: r in rows && r.id == id && ContentMap(rows)[id] == r.content && DocMap(rows)[id] == r.doc
      {
        if id == last.id {
          assert last in rows;
        } else {
          var r :| r in init && r.id == id && ContentMap(init)[id] == r.content && DocMap(init)[id] == r.doc;
          assert r in rows;
        }
      }
    }
  }

  lemma FillKeepsForm(e: Engine, s: State, kb: Kb)
    requires WellFormed(e, s)
    ensures WellFormed(e, GetHybrid(e, s, kb)) && WellFormed(e, ChunkSequences(s, kb))
    ensures kb in ChunkSequences(s, kb).sequences
    ensures kb in GetHybrid(e, s, kb).hybrids <==> kb in s.hybrids || Indexable(e, BuildHybrid(s.rows, kb).corpus)
  {
    hide BuildHybrid, BuildSequences, Indexable;
    ListLength(s.rows, kb);
  }

  // ---------- what each operation does to coherence ----------

  lemma SearchKeeps(e: Engine, s: State, kb: Kb)
    requires Coherent(s)
    ensures Coherent(GetHybrid(e, s, kb)) && Coherent(ChunkSequences(s, kb))
  {
    hide BuildHybrid, BuildSequences;
  }

  /** Deleting a document keeps the caches coherent if and only if no other cached KB has rows of it:
      only the caches of the given KB are dropped, but the rows go whatever their KB. */
  lemma DeleteKeepsIff(s: State, kb: Kb, doc: Doc)
    requires Coherent(s)
    ensures Coherent(DeleteDocument(s, kb, doc)) <==>
              forall r :: r in s.rows && r.doc == doc && r.kb != kb ==> r.kb !in s.hybrids && r.kb !in s.sequences
  {
    hide BuildHybrid, BuildSequences, OfKb, WithoutDoc;
    var s' := DeleteDocument(s, kb, doc);
    if forall r :: r in s.rows && r.doc == doc && r.kb != kb ==> r.kb !in s.hybrids && r.kb !in s.sequences {
      forall k | (k in s.hybrids || k in s.sequences) && k != kb
        ensures BuildHybrid(s'.rows, k) == BuildHybrid(s.rows, k)
        ensures BuildSequences(s'.rows, k) == BuildSequences(s.rows, k)
      {
        RemovalIsSeen(s.rows, doc, k);
        BuiltFromOwnRows(s'.rows, s.rows, k);
      }
    } else {
      var r :| r in s.rows && r.doc == doc && r.kb != kb && (r.kb in s.hybrids || r.kb in s.sequences);
      RemovalIsSeen(s.rows, doc, r.kb);
      LengthsDiffer(s'.rows, s.rows, r.kb);
    }
  }

  /** What uuid4 gives: a new document id and new, distinct chunk ids. */
  ghost predicate Fresh(s: State, doc: Doc, ids: seq<Id>) {
    doc !in s.docs && NoDuplicates(ids) && forall id :: id in ids ==> id !in s.issued
  }

  lemma NewRowsOfKb(doc: Doc, kb: Kb, ids: seq<Id>, chunks: seq<string>, k: Kb)
    requires |ids| == |chunks|
    ensures OfKb(NewRows(doc, kb, ids, chunks), k) == if k == kb then NewRows(doc, kb, ids, chunks) else []
    ensures forall r :: r in NewRows(doc, kb, ids, chunks) ==> r.doc == doc && r.kb == kb && r.id in ids
  {
    var rows := NewRows(doc, kb, ids, chunks);
    if k == kb {
      OfKbAll(rows, k);
    } else {
      OfKbNone(rows, k);
    }
  }

  /** Adding a new document's rows shows in its own KB and in no other. */
  lemma AddedRowsSeen(s: State, doc: Doc, kb: Kb, ids: seq<Id>, chunks: seq<string>, k: Kb)
    requires Tidy(s) && doc !in s.docs && |ids| == |chunks|
    ensures var rows' := SetChunks(s.rows, doc, NewRows(doc, kb, ids, chunks));
            && (k != kb ==> OfKb(rows', k) == OfKb(s.rows, k))
            && |OfKb(rows', kb)| == |OfKb(s.rows, kb)| + |ids|
  {
    hide OfKb, WithoutDoc;
    NewRowsOfKb(doc, kb, ids, chunks, k);
    NewRowsOfKb(doc, kb, ids, chunks, kb);
    RemovalIsSeen(s.rows, doc, k);
    RemovalIsSeen(s.rows, doc, kb);
    OfKbConcat(WithoutDoc(s.rows, doc), NewRows(doc, kb, ids, chunks), k);
    OfKbConcat(WithoutDoc(s.rows, doc), NewRows(doc, kb, ids, chunks), kb);
  }

  /** Ingesting keeps the caches coherent, except that a store that raises after the rows were
      committed skips the invalidation: then they stay coherent if and only if the KB is not
      cached. */
  lemma IngestKeepsIff(e: Engine, s: State, kb: Kb, text: string, doc: Doc, ids: seq<Id>, fault: IngestFault)
    requires Coherent(s) && Tidy(s) && |ids| == |e.chunk(text)| && Fresh(s, doc, ids)
    ensures Coherent(IngestFile(e, s, kb, text, doc, ids, fault).0) <==>
              (fault.UpsertRaises? && !FindByHash(s.docs, kb, text) && e.chunk(text) != []
               ==> kb !in s.hybrids && kb !in s.sequences)
  {
    hide BuildHybrid, BuildSequences, OfKb, WithoutDoc, Upsert, Tidy;
    var s' := IngestFile(e, s, kb, text, doc, ids, fault).0;
    var chunks := e.chunk(text);
    if !FindByHash(s.docs, kb, text) && chunks != [] && (fault.NoFault? || fault.UpsertRaises?) {
      forall k | k != kb
        ensures BuildHybrid(s'.rows, k) == BuildHybrid(s.rows, k)
        ensures BuildSequences(s'.rows, k) == BuildSequences(s.rows, k)
      {
        AddedRowsSeen(s, doc, kb, ids, chunks, k);
        BuiltFromOwnRows(s'.rows, s.rows, k);
      }
      AddedRowsSeen(s, doc, kb, ids, chunks, kb);
      LengthsDiffer(s'.rows, s.rows, kb);
    }
  }

  // ---------- what each operation does to rows and points ----------

  /** A search changes no row and no point. */
  lemma SearchOnlyCaches(e: Engine, s: State, kb: Kb, query: string)
    requires Lawful(e) && WellFormed(e, s)
    ensures var s' := SearchState(e, s, kb, query);
            s' == s.(hybrids := s'.hybrids, sequences := s'.sequences)
  {
    hide BuildHybrid, BuildSequences, Hits, Indexable;
  }

  lemma {:induction false} UpsertEffect(points: map<Id, Point>, rows: seq<ChunkRow>, embed: string -> Vec)
    ensures forall id :: id in Upsert(points, rows, embed) <==> id in points || HasRow(rows, id)
    ensures forall id :: id in points && !HasRow(rows, id) ==> Upsert(points, rows, embed)[id] == points[id]
    ensures forall id :: HasRow(rows, id) ==>
              exists r :: r in rows && r.id == id && Upsert(points, rows, embed)[id] == PointOf(embed, r)
    decreases |rows|
  {
    hide PointOf;
    if rows != [] {
      var init, last := rows[..|rows| - 1], rows[|rows| - 1];
      UpsertEffect(points, init, embed);
      assert rows == init + [last];
      forall id ensures HasRow(rows, id) <==> HasRow(init, id) || id == last.id {
        HasRowSnoc(init, last, id);
      }
      forall id | HasRow(rows, id)
        ensures exists r :: r in rows && r.id == id && Upsert(points, rows, embed)[id] == PointOf(embed, r)
      {
        if id == last.id {
          assert last in rows;
        } else {
          var r :| r in init && r.id == id && Upsert(points, init, embed)[id] == PointOf(embed, r);
          assert r in rows;
        }
      }
    }
  }

  lemma HasRowSnoc(init: seq<ChunkRow>, last: ChunkRow, id: Id)
    ensures HasRow(init + [last], id) <==> HasRow(init, id) || id == last.id
  {
    assert last in init + [last];
    if HasRow(init, id) {
      var r :| r in init && r.id == id;
      assert r in init + [last];
    }
  }

  lemma NewRowsUnique(doc: Doc, kb: Kb, ids: seq<Id>, chunks: seq<string>)
    requires |ids| == |chunks| && NoDuplicates(ids)
    ensures UniqueIds(NewRows(doc, kb, ids, chunks))
  {
  }

  lemma SetChunksMembers(rows: seq<ChunkRow>, doc: Doc, added: seq<ChunkRow>)
    requires forall r :: r in rows ==> r.doc != doc
    ensures forall r :: r in SetChunks(rows, doc, added) <==> r in rows || r in added
  {
    WithoutDocMembers(rows, doc);
  }

  /** The state after the rows and some or all points of a new document were written. */
  lemma WrittenIsTidy(s: State, s': State, kb: Kb, doc: Doc, ids: seq<Id>, chunks: seq<string>, written: nat,
                      embed: string -> Vec)
    requires Tidy(s) && |ids| == |chunks| && Fresh(s, doc, ids)
    requires var rows := NewRows(doc, kb, ids, chunks);
             && s'.rows == SetChunks(s.rows, doc, rows) && s'.points == Upsert(s.points, Take(rows, written), embed)
    requires s'.docs.Keys == s.docs.Keys + {doc} && s'.docs[doc].kb == kb
    requires forall d :: d in s.docs ==> s'.docs[d] == s.docs[d]
    requires s'.issued == s.issued + map id | id in ids :: doc
    ensures Tidy(s')
  {
    hide NewRows, SetChunks, Upsert, Take;
    var rows := NewRows(doc, kb, ids, chunks);
    NewRowsOfKb(doc, kb, ids, chunks, kb);
    NewRowsUnique(doc, kb, ids, chunks);
    SetChunksMembers(s.rows, doc, rows);
    UpsertEffect(s.points, Take(rows, written), embed);
    TakeMembers(rows, written);
    forall id | id in s'.points ensures OwnedPoint(s', id, s'.points[id]) {
      if HasRow(Take(rows, written), id) {
        var r :| r in Take(rows, written) && r.id == id && s'.points[id] == PointOf(embed, r);
        assert r in rows;
      } else {
        assert OwnedPoint(s, id, s.points[id]);
      }
    }
  }

  lemma TakeMembers<T(!new)>(s: seq<T>, n: nat)
    ensures forall x :: x in Take(s, n) ==> x in s
  {
  }

  lemma IngestKeepsTidy(e: Engine, s: State, kb: Kb, text: string, doc: Doc, ids: seq<Id>, fault: IngestFault)
    requires Tidy(s) && |ids| == |e.chunk(text)| && Fresh(s, doc, ids)
    ensures Tidy(IngestFile(e, s, kb, text, doc, ids, fault).0)
  {
    hide NewRows, SetChunks, Upsert, UniqueIds;
    var s' := IngestFile(e, s, kb, text, doc, ids, fault).0;
    var chunks := e.chunk(text);
    if !FindByHash(s.docs, kb, text) && chunks != [] {
      if fault.UpsertRaises? {
        WrittenIsTidy(s, s', kb, doc, ids, chunks, fault.written, e.embed);
      } else if fault.NoFault? {
        assert Take(NewRows(doc, kb, ids, chunks), |NewRows(doc, kb, ids, chunks)|) == NewRows(doc, kb, ids, chunks);
        WrittenIsTidy(s, s', kb, doc, ids, chunks, |NewRows(doc, kb, ids, chunks)|, e.embed);
      } else {
        forall r | r in s'.rows ensures OwnedRow(s', r) {
          assert OwnedRow(s, r);
        }
      }
    }
  }

  lemma DeleteKeepsTidy(s: State, kb: Kb, doc: Doc)
    requires Tidy(s)
    ensures Tidy(DeleteDocument(s, kb, doc))
  {
    hide WithoutDoc;
    var s' := DeleteDocument(s, kb, doc);
    WithoutDocMembers(s.rows, doc);
    forall r | r in s'.rows ensures OwnedRow(s', r) {
      assert OwnedRow(s, r);
    }
    forall id | id in s'.points ensures OwnedPoint(s', id, s'.points[id]) {
      assert OwnedPoint(s, id, s.points[id]);
    }
  }

  lemma DeleteKeepsMirror(e: Engine, s: State, kb: Kb, doc: Doc)
    requires Tidy(s) && Mirrored(e, s) && (doc in s.docs ==> s.docs[doc].kb == kb)
    ensures Mirrored(e, DeleteDocument(s, kb, doc))
  {
    hide WithoutDoc;
    var s' := DeleteDocument(s, kb, doc);
    WithoutDocMembers(s.rows, doc);
    forall id | id in s'.points ensures HasRow(s'.rows, id) {
      var r :| r in s.rows && r.id == id;
      assert OwnedRow(s, r);
      assert r in s'.rows;
    }
  }

  /** The rows of a new document are beside the old ones, and so are their points. */
  lemma Written(e: Engine, s: State, kb: Kb, doc: Doc, ids: seq<Id>, chunks: seq<string>)
    requires Tidy(s) && |ids| == |chunks| && Fresh(s, doc, ids)
    ensures var rows := NewRows(doc, kb, ids, chunks);
            && UniqueIds(rows)
            && (forall r :: r in SetChunks(s.rows, doc, rows) <==> r in s.rows || r in rows)
            && (forall r :: r in s.rows ==> !HasRow(rows, r.id))
  {
    hide NewRows, SetChunks;
    var rows := NewRows(doc, kb, ids, chunks);
    NewRowsOfKb(doc, kb, ids, chunks, kb);
    NewRowsUnique(doc, kb, ids, chunks);
    assert forall r :: r in s.rows ==> OwnedRow(s, r);
    SetChunksMembers(s.rows, doc, rows);
  }

  lemma RowsMirrored(s: State, all: seq<ChunkRow>, rows: seq<ChunkRow>, points: map<Id, Point>, embed: string -> Vec)
    requires forall r :: r in s.rows ==> r.id in s.points && s.points[r.id] == PointOf(embed, r) && !HasRow(rows, r.id)
    requires UniqueIds(rows) && points == Upsert(s.points, rows, embed)
    requires forall r :: r in all <==> r in s.rows || r in rows
    ensures forall r :: r in all ==> r.id in points && points[r.id] == PointOf(embed, r)
  {
    hide Upsert, PointOf;
    UpsertEffect(s.points, rows, embed);
    forall r | r in rows ensures r.id in points && points[r.id] == PointOf(embed, r) {
      assert HasRow(rows, r.id);
    }
  }

  lemma PointsMirrored(s: State, all: seq<ChunkRow>, rows: seq<ChunkRow>, points: map<Id, Point>, embed: string -> Vec)
    requires forall id :: id in s.points ==> HasRow(s.rows, id)
    requires points == Upsert(s.points, rows, embed) && forall r :: r in all <==> r in s.rows || r in rows
    ensures forall id :: id in points ==> HasRow(all, id)
  {
    hide Upsert, PointOf;
    UpsertEffect(s.points, rows, embed);
    forall id | id in points ensures HasRow(all, id) {
      if HasRow(rows, id) {
        var r :| r in rows && r.id == id;
        assert r in all;
      } else {
        var r :| r in s.rows && r.id == id;
        assert r in all;
      }
    }
  }

  lemma IngestKeepsMirror(e: Engine, s: State, kb: Kb, text: string, doc: Doc, ids: seq<Id>, fault: IngestFault)
    requires Tidy(s) && Mirrored(e, s) && |ids| == |e.chunk(text)| && Fresh(s, doc, ids) && !fault.UpsertRaises?
    ensures Mirrored(e, IngestFile(e, s, kb, text, doc, ids, fault).0)
  {
    hide NewRows, SetChunks, Upsert, PointOf, HasRow, UniqueIds, Fresh;
    var s' := IngestFile(e, s, kb, text, doc, ids, fault).0;
    var chunks := e.chunk(text);
    if !FindByHash(s.docs, kb, text) && chunks != [] && fault.NoFault? {
      Written(e, s, kb, doc, ids, chunks);
      RowsMirrored(s, s'.rows, NewRows(doc, kb, ids, chunks), s'.points, e.embed);
      PointsMirrored(s, s'.rows, NewRows(doc, kb, ids, chunks), s'.points, e.embed);
    }
  }

  // ---------- over all histories ----------

  datatype Op =
    | SearchOp(kb: Kb, query: string)
    | IngestOp(kb: Kb, text: string, doc: Doc, ids: seq<Id>, fault: IngestFault)
    | DeleteOp(kb: Kb, doc: Doc)

  /** New ids come from uuid4. */
  ghost predicate Enabled(e: Engine, s: State, op: Op) {
    op.IngestOp? ==> |op.ids| == |e.chunk(op.text)| && Fresh(s, op.doc, op.ids)
  }

  /** The store does not raise once the rows are committed. */
  ghost predicate Clean(op: Op) {
    op.IngestOp? ==> !op.fault.UpsertRaises?
  }

  ghost function Step(e: Engine, s: State, op: Op): (r: State)
    requires Lawful(e) && WellFormed(e, s) && Enabled(e, s, op)
    ensures WellFormed(e, r)
  {
    match op
    case SearchOp(kb, query) => SearchState(e, s, kb, query)
    case IngestOp(kb, text, doc, ids, fault) => IngestFile(e, s, kb, text, doc, ids, fault).0
    case DeleteOp(kb, doc) => DeleteRequest(s, kb, doc)
  }

  ghost predicate CleanRun(e: Engine, s: State, ops: seq<Op>)
    requires Lawful(e) && WellFormed(e, s)
    decreases |ops|
  {
    ops == [] || (Enabled(e, s, ops[0]) && Clean(ops[0]) && CleanRun(e, Step(e, s, ops[0]), ops[1..]))
  }

  ghost function Run(e: Engine, s: State, ops: seq<Op>): (r: State)
    requires Lawful(e) && WellFormed(e, s) && CleanRun(e, s, ops)
    ensures WellFormed(e, r)
    decreases |ops|
  {
    if ops == [] then s else Run(e, Step(e, s, ops[0]), ops[1..])
  }

  ghost predicate Sound(e: Engine, s: State) {
    Coherent(s) && Tidy(s) && Mirrored(e, s)
  }

  const START := State(map[], [], map[], map[], map[], map[])

  lemma OwnKbOnly(s: State, kb: Kb, doc: Doc)
    requires Tidy(s) && (doc in s.docs ==> s.docs[doc].kb == kb)
    ensures forall r :: r in s.rows && r.doc == doc ==> r.kb == kb
  {
    forall r | r in s.rows && r.doc == doc ensures r.kb == kb {
      assert OwnedRow(s, r);
    }
  }

  /** A deletion that passes the request's check always keeps the caches coherent. */
  lemma RequestKeepsCoherent(s: State, kb: Kb, doc: Doc)
    requires Coherent(s) && Tidy(s)
    ensures Coherent(DeleteRequest(s, kb, doc))
  {
    hide DeleteDocument, Coherent, UniqueIds;
    if doc in s.docs && s.docs[doc].kb == kb {
      OwnKbOnly(s, kb, doc);
      DeleteKeepsIff(s, kb, doc);
    }
  }

  lemma StartIsSound(e: Engine)
    ensures Sound(e, START)
  {
  }

  lemma StepKeepsSound(e: Engine, s: State, op: Op)
    requires Lawful(e) && WellFormed(e, s) && Sound(e, s) && Enabled(e, s, op) && Clean(op)
    ensures Sound(e, Step(e, s, op))
  {
    hide SearchState, IngestFile, DeleteDocument, Coherent, Mirrored;
    match op {
      case SearchOp(kb, query) => {
        SearchOnlyCaches(e, s, kb, query);
        SearchKeepsSound(e, s, kb, query);
      }
      case IngestOp(kb, text, doc, ids, fault) => {
        IngestKeepsIff(e, s, kb, text, doc, ids, fault);
        IngestKeepsTidy(e, s, kb, text, doc, ids, fault);
        IngestKeepsMirror(e, s, kb, text, doc, ids, fault);
      }
      case DeleteOp(kb, doc) => {
        RequestKeepsCoherent(s, kb, doc);
        if doc in s.docs && s.docs[doc].kb == kb {
          DeleteKeepsTidy(s, kb, doc);
          DeleteKeepsMirror(e, s, kb, doc);
        }
      }
    }
  }

  /** Rows and points do not depend on the caches. */
  lemma CachesBeside(e: Engine, s: State, s': State)
    requires s' == s.(hybrids := s'.hybrids, sequences := s'.sequences) && Tidy(s) && Mirrored(e, s)
    ensures Tidy(s') && Mirrored(e, s')
  {
    hide UniqueIds, PointOf;
    forall r | r in s'.rows ensures OwnedRow(s', r) {
      assert OwnedRow(s, r);
    }
    forall id | id in s'.points ensures OwnedPoint(s', id, s'.points[id]) {
      assert OwnedPoint(s, id, s.points[id]);
    }
  }

  lemma SearchKeepsSound(e: Engine, s: State, kb: Kb, query: string)
    requires Lawful(e) && WellFormed(e, s) && Sound(e, s)
    ensures Sound(e, SearchState(e, s, kb, query))
  {
    hide BuildHybrid, BuildSequences, Coherent, Tidy, Mirrored;
    FillKeepsForm(e, s, kb);
    SearchKeeps(e, s, kb);
    SearchKeeps(e, GetHybrid(e, s, kb), kb);
    SearchOnlyCaches(e, s, kb, query);
    CachesBeside(e, s, SearchState(e, s, kb, query));
  }

  lemma {:induction false} RunKeepsSound(e: Engine, s: State, ops: seq<Op>)
    requires Lawful(e) && WellFormed(e, s) && Sound(e, s) && CleanRun(e, s, ops)
    ensures Sound(e, Run(e, s, ops))
    decreases |ops|
  {
    hide Sound, Step, Clean, Enabled, WellFormed;
    if ops != [] {
      StepKeepsSound(e, s, ops[0]);
      RunKeepsSound(e, Step(e, s, ops[0]), ops[1..]);
    }
  }

  /** The state without its caches. */
  ghost function Uncached(s: State): State {
    s.(hybrids := map[], sequences := map[])
  }

  /** After any clean history every cached structure equals a rebuild, and a cached search answers
      exactly what an uncached one would. */
  lemma CachedSearchIsUncached(e: Engine, ops: seq<Op>, kb: Kb, query: string, topK: nat)
    requires Lawful(e) && CleanRun(e, START, ops)
    ensures Coherent(Run(e, START, ops))
    ensures SearchAnswer(e, Run(e, START, ops), kb, query, topK)
            == SearchAnswer(e, Uncached(Run(e, START, ops)), kb, query, topK)
  {
    hide BuildHybrid, BuildSequences, Run, CleanRun, Tidy, Mirrored, Answer;
    StartIsSound(e);
    RunKeepsSound(e, START, ops);
    AnswerIgnoresCaches(e, Run(e, START, ops), kb, query, topK);
  }

  /** In a coherent state a search answers from rebuilt structures. */
  lemma CoherentAnswer(e: Engine, s: State, kb: Kb, query: string, topK: nat)
    requires Lawful(e) && WellFormed(e, s) && Coherent(s)
    ensures var hybrid := BuildHybrid(s.rows, kb);
            SearchAnswer(e, s, kb, query, topK)
            == if Indexable(e, hybrid.corpus)
               then Some(Answer(e, s, hybrid, BuildSequences(s.rows, kb), kb, query, topK)) else None
  {
    ListLength(s.rows, kb);
    hide BuildHybrid, BuildSequences, Answer, Indexable;
    FillKeepsForm(e, s, kb);
  }

  lemma SameAnswer(e: Engine, s: State, s': State, hybrid: Hybrid, seqs: Sequences, kb: Kb, query: string, topK: nat)
    requires Lawful(e) && |hybrid.ids| == |hybrid.corpus| && s'.rows == s.rows && s'.points == s.points
    ensures Answer(e, s', hybrid, seqs, kb, query, topK) == Answer(e, s, hybrid, seqs, kb, query, topK)
  {
    hide FusedHits, SparseIds, Rerank, ResultsOf, HitTexts;
  }

  lemma AnswerIgnoresCaches(e: Engine, s: State, kb: Kb, query: string, topK: nat)
    requires Lawful(e) && WellFormed(e, s) && Coherent(s)
    ensures SearchAnswer(e, s, kb, query, topK) == SearchAnswer(e, Uncached(s), kb, query, topK)
  {
    ListLength(s.rows, kb);
    hide BuildHybrid, BuildSequences, Answer, Indexable, SearchAnswer;
    CoherentAnswer(e, s, kb, query, topK);
    CoherentAnswer(e, Uncached(s), kb, query, topK);
    SameAnswer(e, s, Uncached(s), BuildHybrid(s.rows, kb), BuildSequences(s.rows, kb), kb, query, topK);
  }

  /** A search raises if and only if the KB has chunks and none of them has a token. */
  lemma SearchRaisesIff(e: Engine, s: State, kb: Kb, query: string, topK: nat)
    requires Lawful(e) && WellFormed(e, s) && Coherent(s)
    ensures SearchAnswer(e, s, kb, query, topK).None? <==>
              OfKb(s.rows, kb) != [] && forall r :: r in s.rows && r.kb == kb ==> e.tokenize(r.content) == []
  {
    ListLength(s.rows, kb);
    hide BuildSequences, Answer, BuildHybrid, SearchAnswer, ListChunks, OfKb;
    var corpus := BuildHybrid(s.rows, kb).corpus;
    CoherentAnswer(e, s, kb, query, topK);
    ListMembers(s.rows, kb);
    CorpusOf(s.rows, kb);
    if forall r :: r in s.rows && r.kb == kb ==> e.tokenize(r.content) == [] {
      forall i | 0 <= i < |corpus| ensures e.tokenize(corpus[i]) == [] {
        assert ListChunks(s.rows, kb)[i] in ListChunks(s.rows, kb);
      }
    } else {
      var r :| r in s.rows && r.kb == kb && e.tokenize(r.content) != [];
      assert r in ListChunks(s.rows, kb);
      var i :| 0 <= i < |corpus| && ListChunks(s.rows, kb)[i] == r;
      assert e.tokenize(corpus[i]) != [];
    }
  }

  lemma CorpusOf(rows: seq<ChunkRow>, kb: Kb)
    ensures var list, corpus := ListChunks(rows, kb), BuildHybrid(rows, kb).corpus;
            |corpus| == |list| && forall i :: 0 <= i < |list| ==> corpus[i] == list[i].content
  {
  }

  /** A KB lists its own rows. */
  lemma ListMembers(rows: seq<ChunkRow>, kb: Kb)
    ensures forall r :: r in ListChunks(rows, kb) <==> r in rows && r.kb == kb
  {
    hide OfKb, SortBy, RowBefore;
    SortElements(OfKb(rows, kb), RowBefore);
    SameMembers(ListChunks(rows, kb), OfKb(rows, kb));
    OfKbMembers(rows, kb);
  }

  lemma ListedHasRow(rows: seq<ChunkRow>, kb: Kb, id: Id)
    requires id in BuildHybrid(rows, kb).ids
    ensures exists r :: r in rows && r.id == id && r.kb == kb
  {
    hide ListChunks;
    var list := ListChunks(rows, kb);
    var i :| 0 <= i < |list| && RowIds(list)[i] == id;
    ListMembers(rows, kb);
    assert list[i] in list && list[i].id == id;
  }

  lemma DenseHasRow(e: Engine, s: State, kb: Kb, v: Vec, id: Id)
    requires Lawful(e) && Mirrored(e, s) && id in Ids(e.dense(KbPoints(s.points, kb), v))
    ensures exists r :: r in s.rows && r.id == id && r.kb == kb
  {
    var dense := e.dense(KbPoints(s.points, kb), v);
    var i :| 0 <= i < |dense| && Ids(dense)[i] == id;
    assert dense[i] in dense;
    assert HasRow(s.rows, id);
    var r :| r in s.rows && r.id == id;
    assert s.points[r.id] == PointOf(e.embed, r);
  }

  lemma HitsHaveRows(e: Engine, s: State, kb: Kb, query: string, hit: HybridHit)
    requires Lawful(e) && Mirrored(e, s) && |BuildHybrid(s.rows, kb).ids| == |BuildHybrid(s.rows, kb).corpus|
    requires hit in Hits(e, s, BuildHybrid(s.rows, kb), kb, query)
    ensures exists r :: r in s.rows && r.id == hit.chunkId && r.kb == kb
  {
    hide FusedHits, SparseIds, BuildHybrid, Ids, KbPoints, Mirrored;
    var dense := e.dense(KbPoints(s.points, kb), e.embed(query));
    var hybrid := BuildHybrid(s.rows, kb);
    HitsAreListed(dense, SparseIds(e, hybrid, query), e.rrfK, e.retrievalTopK, hit);
    if hit.chunkId in Ids(dense) {
      DenseHasRow(e, s, kb, e.embed(query), hit.chunkId);
    } else {
      SparseIdsOfHybrid(e, hybrid, query);
      ListedHasRow(s.rows, kb, hit.chunkId);
    }
  }

  lemma SparseIdsOfHybrid(e: Engine, hybrid: Hybrid, query: string)
    requires Lawful(e) && |hybrid.ids| == |hybrid.corpus|
    ensures forall id :: id in SparseIds(e, hybrid, query) ==> id in hybrid.ids
  {
    var sparse := e.sparse(hybrid.corpus, query);
    forall i | 0 <= i < |sparse| ensures SparseIds(e, hybrid, query)[i] in hybrid.ids {
      assert sparse[i] in sparse;
    }
  }

  // ---------- what a result says ----------

  /** The rows of one document, in the order of the list. */
  function OfDoc(rows: seq<ChunkRow>, doc: Doc): seq<ChunkRow> {
    if rows == [] then []
    else OfDoc(rows[..|rows| - 1], doc) + if rows[|rows| - 1].doc == doc then [rows[|rows| - 1]] else []
  }

  lemma {:induction false} OfDocMembers(rows: seq<ChunkRow>, doc: Doc)
    ensures forall r :: r in OfDoc(rows, doc) <==> r in rows && r.doc == doc
    decreases |rows|
  {
    if rows != [] {
      OfDocMembers(rows[..|rows| - 1], doc);
      assert rows == rows[..|rows| - 1] + [rows[|rows| - 1]];
    }
  }

  lemma RowIdsSnoc(rows: seq<ChunkRow>, r: ChunkRow)
    ensures RowIds(rows + [r]) == RowIds(rows) + [r.id]
  {
  }

  lemma DocSeqSnoc(ids: seq<Id>, id: Id, docMap: map<Id, Doc>, doc: Doc)
    ensures Parent.DocSeq(ids + [id], docMap, doc)
            == Parent.DocSeq(ids, docMap, doc) + if id in docMap && docMap[id] == doc then [id] else []
  {
    assert (ids + [id])[..|ids|] == ids;
  }

  lemma {:induction false} DocSeqIsOfDoc(rows: seq<ChunkRow>, docMap: map<Id, Doc>, doc: Doc)
    requires forall r :: r in rows ==> r.id in docMap && docMap[r.id] == r.doc
    ensures Parent.DocSeq(RowIds(rows), docMap, doc) == RowIds(OfDoc(rows, doc))
    decreases |rows|
  {
    if rows != [] {
      hide RowIds, Parent.DocSeq;
      var init, last := rows[..|rows| - 1], rows[|rows| - 1];
      assert rows == init + [last];
      assert last in rows && forall r :: r in init ==> r in rows;
      DocSeqIsOfDoc(init, docMap, doc);
      RowIdsSnoc(init, last);
      RowIdsSnoc(OfDoc(init, doc), last);
      DocSeqSnoc(RowIds(init), last.id, docMap, doc);
    }
  }

  lemma TextsAreContents(rows: seq<ChunkRow>, ordered: map<Id, string>)
    requires forall r :: r in rows ==> r.id in ordered && ordered[r.id] == r.content
    ensures Parent.Texts(ordered, RowIds(rows)) == Contents(rows)
  {
    forall i | 0 <= i < |rows| ensures Parent.Texts(ordered, RowIds(rows))[i] == Contents(rows)[i] {
      assert rows[i] in rows;
    }
  }

  lemma ContentsSlice(rows: seq<ChunkRow>, lo: nat, hi: nat)
    requires lo <= hi <= |rows|
    ensures Contents(rows)[lo..hi] == Contents(rows[lo..hi])
  {
  }

  /** The maps built from rows with unique ids give each row's own text and document. */
  lemma MapsOf(rows: seq<ChunkRow>)
    requires UniqueIds(rows)
    ensures forall r :: r in rows ==> r.id in ContentMap(rows) && ContentMap(rows)[r.id] == r.content
    ensures forall r :: r in rows ==> r.id in DocMap(rows) && DocMap(rows)[r.id] == r.doc
  {
    hide ContentMap, DocMap;
    MapsAreRows(rows);
  }

  /** `expanded` is the texts of a contiguous run, with r in it, of the rows of r's document in the KB;
      they have PARENT_SIZE characters together or are all the document's. */
  ghost predicate Window(rows: seq<ChunkRow>, kb: Kb, r: ChunkRow, lo: int, hi: int, expanded: string) {
    var rs := OfDoc(ListChunks(rows, kb), r.doc);
    && 0 <= lo < hi <= |rs| && r in rs[lo..hi] && expanded == Parent.JoinParts(Contents(rs[lo..hi]))
    && (Parent.Size(Contents(rs[lo..hi])) >= 2048 || (lo == 0 && hi == |rs|))
  }

  lemma SequencesOf(rows: seq<ChunkRow>, kb: Kb, doc: Doc)
    requires UniqueIds(rows)
    ensures var seqs, rs := BuildSequences(rows, kb), OfDoc(ListChunks(rows, kb), doc);
            && Parent.DocSeq(seqs.allIds, seqs.docMap, doc) == RowIds(rs)
            && Parent.Texts(seqs.ordered, RowIds(rs)) == Contents(rs)
            && (forall r :: r in rows && r.kb == kb ==> r.id in seqs.allIds && r.id in seqs.docMap
                                                        && seqs.docMap[r.id] == r.doc)
            && (forall r :: r in rs <==> r in rows && r.kb == kb && r.doc == doc)
  {
    hide ListChunks, OfDoc, ContentMap, DocMap, Parent.DocSeq, Parent.Texts;
    var list := ListChunks(rows, kb);
    ListMembers(rows, kb);
    MapsOf(list);
    DocSeqIsOfDoc(list, DocMap(list), doc);
    OfDocMembers(list, doc);
    TextsAreContents(OfDoc(list, doc), ContentMap(list));
    forall r | r in list ensures r.id in RowIds(list) {
      var i :| 0 <= i < |list| && list[i] == r;
      assert RowIds(list)[i] == r.id;
    }
  }

  lemma ExpandedIsWindow(rows: seq<ChunkRow>, kb: Kb, r: ChunkRow) returns (lo: int, hi: int)
    requires UniqueIds(rows) && r in rows && r.kb == kb
    ensures var seqs := BuildSequences(rows, kb);
            Window(rows, kb, r, lo, hi, Parent.Expanded(seqs.allIds, seqs.ordered, seqs.docMap, r.id, PARENT_SIZE))
  {
    hide BuildSequences, ListChunks, OfDoc, Parent.Expanded, Parent.DocSeq, Parent.Texts, Parent.JoinParts,
         Parent.Size, Parent.Window, Parent.Around;
    var seqs, rs := BuildSequences(rows, kb), OfDoc(ListChunks(rows, kb), r.doc);
    SequencesOf(rows, kb, r.doc);
    lo, hi := Parent.ExpansionPromise(seqs.allIds, seqs.ordered, seqs.docMap, r.id, PARENT_SIZE);
    var i := Parent.IndexOf(RowIds(rs), r.id);
    assert rs[i] in rs && rs[i].id == r.id;
    assert rs[lo..hi][i - lo] == r;
    ContentsSlice(rs, lo, hi);
  }

  /** What a result says of the registry: it is a chunk of the KB, with its own document and text, and
      its expansion is made of that document's chunks around it. */
  ghost predicate Live(s: State, kb: Kb, result: SearchResult) {
    exists r, lo, hi ::
      && Window(s.rows, kb, r, lo, hi, result.expanded)
      && r in s.rows && r.kb == kb
      && r.id == result.chunkId && r.doc == result.docId && r.content == result.content
  }

  lemma HitIsLive(s: State, kb: Kb, hit: HybridHit, score: real)
    requires UniqueIds(s.rows)
    requires exists r :: r in s.rows && r.id == hit.chunkId && r.kb == kb
    ensures Live(s, kb, ResultOf(s.rows, BuildSequences(s.rows, kb), hit, score))
  {
    hide Parent.Expanded, ContentMap, DocMap, Window, BuildSequences;
    MapsOf(s.rows);
    var r :| r in s.rows && r.id == hit.chunkId && r.kb == kb;
    var lo, hi := ExpandedIsWindow(s.rows, kb, r);
  }

  /** Every result is made from a hit. */
  lemma ResultsHaveHits(e: Engine, s: State, hybrid: Hybrid, seqs: Sequences, kb: Kb, query: string, topK: nat)
    requires Lawful(e) && |hybrid.ids| == |hybrid.corpus|
    ensures forall result :: result in Answer(e, s, hybrid, seqs, kb, query, topK) ==>
              exists hit, score :: hit in Hits(e, s, hybrid, kb, query) && result == ResultOf(s.rows, seqs, hit, score)
  {
    hide Hits, Rerank, ResultOf;
    var hits := Hits(e, s, hybrid, kb, query);
    var scores := e.rerank(query, HitTexts(s.rows, hits));
    var top := Rerank(hits, scores, e.rerankTopK);
    forall result | result in Answer(e, s, hybrid, seqs, kb, query, topK)
      ensures exists hit, score :: hit in hits && result == ResultOf(s.rows, seqs, hit, score)
    {
      var i :| 0 <= i < |top| && result == ResultOf(s.rows, seqs, top[i].hit, top[i].score);
      RerankedAreHits(hits, scores, e.rerankTopK, i);
    }
  }

  /** In a sound state every result is live. */
  lemma AnswersAreLive(e: Engine, s: State, kb: Kb, query: string, topK: nat, result: SearchResult)
    requires Lawful(e) && WellFormed(e, s) && Sound(e, s)
    requires var answer := SearchAnswer(e, s, kb, query, topK);
             answer.Some? && result in answer.value
    ensures Live(s, kb, result)
  {
    hide BuildSequences, ResultOf, Live, UniqueIds, Hits, Indexable, SearchAnswer, Coherent, Mirrored, Answer, Lawful,
         WellFormed, ListChunks;
    CoherentAnswer(e, s, kb, query, topK);
    ListLength(s.rows, kb);
    var hybrid, seqs := BuildHybrid(s.rows, kb), BuildSequences(s.rows, kb);
    ResultsHaveHits(e, s, hybrid, seqs, kb, query, topK);
    var hit, score :| hit in Hits(e, s, hybrid, kb, query) && result == ResultOf(s.rows, seqs, hit, score);
    HitsHaveRows(e, s, kb, query, hit);
    HitIsLive(s, kb, hit, score);
  }

  // ---------- deleted documents ----------

  /** The chunk was handed out and the registry no longer holds it. */
  ghost predicate Gone(s: State, id: Id) {
    id in s.issued && !HasRow(s.rows, id)
  }

  lemma IngestKeepsGone(e: Engine, s: State, kb: Kb, text: string, doc: Doc, ids: seq<Id>, fault: IngestFault, id: Id)
    requires |ids| == |e.chunk(text)| && Fresh(s, doc, ids) && Gone(s, id)
    ensures Gone(IngestFile(e, s, kb, text, doc, ids, fault).0, id)
  {
    hide WithoutDoc, NewRows, Upsert, FindByHash;
    WithoutDocMembers(s.rows, doc);
    NewRowsOfKb(doc, kb, ids, e.chunk(text), kb);
  }

  lemma StepKeepsGone(e: Engine, s: State, op: Op, id: Id)
    requires Lawful(e) && WellFormed(e, s) && Enabled(e, s, op) && Gone(s, id)
    ensures Gone(Step(e, s, op), id)
  {
    hide SearchState, WithoutDoc, IngestFile, Fresh;
    match op {
      case SearchOp(kb, query) => SearchOnlyCaches(e, s, kb, query);
      case IngestOp(kb, text, doc, ids, fault) => IngestKeepsGone(e, s, kb, text, doc, ids, fault, id);
      case DeleteOp(kb, doc) => WithoutDocMembers(s.rows, doc);
    }
  }

  lemma {:induction false} RunKeepsGone(e: Engine, s: State, ops: seq<Op>, id: Id)
    requires Lawful(e) && WellFormed(e, s) && CleanRun(e, s, ops) && Gone(s, id)
    ensures Gone(Run(e, s, ops), id)
    decreases |ops|
  {
    hide Gone, Step, Clean, Enabled, WellFormed;
    if ops != [] {
      StepKeepsGone(e, s, ops[0], id);
      RunKeepsGone(e, Step(e, s, ops[0]), ops[1..], id);
    }
  }

  ghost predicate IssuedFor(s: State, id: Id, doc: Doc) {
    id in s.issued && s.issued[id] == doc
  }

  /** The result is no chunk handed out for the document, and its expansion is made of rows none of
      which is. */
  ghost predicate FreeOf(s: State, doc: Doc, rows: seq<ChunkRow>, result: SearchResult) {
    && !IssuedFor(s, result.chunkId, doc)
    && exists rs :: result.expanded == Parent.JoinParts(Contents(rs))
                    && forall r :: r in rs ==> r in rows && !IssuedFor(s, r.id, doc)
  }

  lemma LiveIsFree(s: State, doc: Doc, s': State, kb: Kb, result: SearchResult)
    requires Live(s', kb, result) && forall r :: r in s'.rows ==> !IssuedFor(s, r.id, doc)
    ensures FreeOf(s, doc, s'.rows, result)
  {
    hide ListChunks, OfDoc, Contents, Parent.JoinParts, IssuedFor;
    var r, lo, hi :| && Window(s'.rows, kb, r, lo, hi, result.expanded)
                     && r in s'.rows && r.kb == kb && r.id == result.chunkId;
    var list := ListChunks(s'.rows, kb);
    var rs := OfDoc(list, r.doc)[lo..hi];
    ListMembers(s'.rows, kb);
    OfDocMembers(list, r.doc);
    assert forall x :: x in rs ==> x in OfDoc(list, r.doc);
  }

  /** No chunk of a deleted document is ever returned, nor any of its text in an expansion: not by any
      search of any KB after any clean history that follows the deletion. */
  lemma DeletedNeverReturned(e: Engine, before: seq<Op>, kb: Kb, doc: Doc, after: seq<Op>,
                             kb': Kb, query: string, topK: nat)
    requires Lawful(e) && CleanRun(e, START, before)
    requires var s := Run(e, START, before);
             doc in s.docs && s.docs[doc].kb == kb && CleanRun(e, DeleteRequest(s, kb, doc), after)
    ensures var s := Run(e, START, before);
            var s' := Run(e, DeleteRequest(s, kb, doc), after);
            var answer := SearchAnswer(e, s', kb', query, topK);
            answer.Some? ==> forall result :: result in answer.value ==> FreeOf(s, doc, s'.rows, result)
  {
    hide Run, CleanRun, SearchAnswer, Sound, Live, FreeOf, DeleteRequest, IssuedFor;
    StartIsSound(e);
    RunKeepsSound(e, START, before);
    var s := Run(e, START, before);
    var s1 := DeleteRequest(s, kb, doc);
    StepKeepsSound(e, s, DeleteOp(kb, doc));
    RunKeepsSound(e, s1, after);
    var s' := Run(e, s1, after);
    DeletedStayGone(e, s, kb, doc, after);
    var answer := SearchAnswer(e, s', kb', query, topK);
    if answer.Some? {
      forall result | result in answer.value ensures FreeOf(s, doc, s'.rows, result) {
        AnswersAreLive(e, s', kb', query, topK, result);
        LiveIsFree(s, doc, s', kb', result);
      }
    }
  }

  lemma DeletedStayGone(e: Engine, s: State, kb: Kb, doc: Doc, after: seq<Op>)
    requires Lawful(e) && WellFormed(e, s) && Sound(e, s) && doc in s.docs && s.docs[doc].kb == kb
    requires CleanRun(e, DeleteRequest(s, kb, doc), after)
    ensures forall r :: r in Run(e, DeleteRequest(s, kb, doc), after).rows ==> !IssuedFor(s, r.id, doc)
  {
    hide Run, CleanRun, WithoutDoc, Coherent, Mirrored;
    var s1 := DeleteRequest(s, kb, doc);
    forall r | r in Run(e, s1, after).rows ensures !IssuedFor(s, r.id, doc) {
      if IssuedFor(s, r.id, doc) {
        DeletedIsGone(s, kb, doc, r.id);
        RunKeepsGone(e, s1, after, r.id);
      }
    }
  }

  lemma DeletedIsGone(s: State, kb: Kb, doc: Doc, id: Id)
    requires Tidy(s) && id in s.issued && s.issued[id] == doc
    ensures Gone(DeleteDocument(s, kb, doc), id)
  {
    hide WithoutDoc;
    WithoutDocMembers(s.rows, doc);
    forall r | r in DeleteDocument(s, kb, doc).rows ensures r.id != id {
      assert OwnedRow(s, r);
    }
  }

  /** Uploading a content twice: once its document exists, the second upload finds it and changes
      nothing. That holds of a first upload that failed too: its document is never indexed by
      uploading again. */
  lemma SecondUploadFindsFirst(e: Engine, s: State, kb: Kb, text: string, doc: Doc, ids: seq<Id>, fault: IngestFault,
                               doc': Doc, ids': seq<Id>, fault': IngestFault)
    requires |ids| == |ids'| == |e.chunk(text)|
    ensures var (s', result) := IngestFile(e, s, kb, text, doc, ids, fault);
            var again := IngestFile(e, s', kb, text, doc', ids', fault');
            if result == Empty then again == (s, Empty)
            else if result == Raised && fault.CreateRaises? then s' == s
            else again == (s', Existing)
  {
    hide NewRows, SetChunks, Upsert;
    var (s', result) := IngestFile(e, s, kb, text, doc, ids, fault);
    if !FindByHash(s.docs, kb, text) && e.chunk(text) != [] && !fault.CreateRaises? {
      assert doc in s'.docs && s'.docs[doc].kb == kb && s'.docs[doc].hash == text;
    }
  }

  // ---------- a failed ingest that leaves stale caches ----------

  lemma FirstIngest(e: Engine, kb: Kb, text: string, doc: Doc, ids: seq<Id>)
    requires |ids| == |e.chunk(text)| && ids != []
    ensures var s := IngestFile(e, START, kb, text, doc, ids, NoFault).0;
            && s.rows == NewRows(doc, kb, ids, e.chunk(text))
            && s.docs == map[doc := DocRow(kb, text, false)] && s.issued.Keys == (set id | id in ids)
  {
    hide Upsert, NewRows;
    assert SetChunks([], doc, NewRows(doc, kb, ids, e.chunk(text))) == NewRows(doc, kb, ids, e.chunk(text));
  }

  lemma TokenIndexes(e: Engine, kb: Kb, doc: Doc, ids: seq<Id>, chunks: seq<string>, i: nat)
    requires |ids| == |chunks| && i < |chunks| && e.tokenize(chunks[i]) != []
    ensures Indexable(e, BuildHybrid(NewRows(doc, kb, ids, chunks), kb).corpus)
  {
    hide ListChunks, BuildHybrid, NewRows;
    var rows := NewRows(doc, kb, ids, chunks);
    NewRowAt(doc, kb, ids, chunks, i);
    ListMembers(rows, kb);
    CorpusOf(rows, kb);
    var j :| 0 <= j < |ListChunks(rows, kb)| && ListChunks(rows, kb)[j] == rows[i];
    assert e.tokenize(BuildHybrid(rows, kb).corpus[j]) != [];
  }

  lemma NewRowAt(doc: Doc, kb: Kb, ids: seq<Id>, chunks: seq<string>, i: nat)
    requires |ids| == |chunks| && i < |ids|
    ensures |NewRows(doc, kb, ids, chunks)| == |ids|
    ensures NewRows(doc, kb, ids, chunks)[i] == ChunkRow(ids[i], kb, doc, i, chunks[i])
    ensures NewRows(doc, kb, ids, chunks)[i] in NewRows(doc, kb, ids, chunks)
  {
  }

  /** An input that leaves stale caches: upload a file one of whose chunks has a token, search the KB,
      and upload another file while the store raises. Before that upload everything is sound. */
  lemma StaleAfterFailedUpload(e: Engine, kb: Kb, query: string, i: nat, text: string, doc: Doc, ids: seq<Id>,
                               text': string, doc': Doc, ids': seq<Id>)
    requires Lawful(e) && |ids| == |e.chunk(text)| && i < |ids| && e.tokenize(e.chunk(text)[i]) != []
    requires |ids'| == |e.chunk(text')| && ids' != [] && NoDuplicates(ids) && NoDuplicates(ids')
    requires text != text' && doc != doc' && forall id :: id in ids ==> id !in ids'
    ensures var ops := [IngestOp(kb, text, doc, ids, NoFault), SearchOp(kb, query)];
            && CleanRun(e, START, ops) && Sound(e, Run(e, START, ops))
            && Fresh(Run(e, START, ops), doc', ids')
            && !Coherent(IngestFile(e, Run(e, START, ops), kb, text', doc', ids', UpsertRaises(0, true)).0)
  {
    hide IngestFile, SearchState, Sound, Coherent, Tidy, Mirrored, Indexable, BuildHybrid, NewRows;
    var op, search := IngestOp(kb, text, doc, ids, NoFault), SearchOp(kb, query);
    var ops := [op, search];
    assert ops[1..] == [search] && [search][1..] == [];
    FirstIngest(e, kb, text, doc, ids);
    var s1 := Step(e, START, op);
    var s2 := Step(e, s1, search);
    assert CleanRun(e, s2, []) && Run(e, s2, []) == s2;
    assert CleanRun(e, s1, [search]) && Run(e, s1, [search]) == s2;
    assert CleanRun(e, START, ops) && Run(e, START, ops) == s2;
    StartIsSound(e);
    RunKeepsSound(e, START, ops);
    SearchOnlyCaches(e, s1, kb, query);
    TokenIndexes(e, kb, doc, ids, e.chunk(text), i);
    SearchFills(e, s1, kb, query);
    NotFound(s2.docs, kb, text');
    SoundParts(e, s2);
    IngestKeepsIff(e, s2, kb, text', doc', ids', UpsertRaises(0, true));
  }

  lemma SoundParts(e: Engine, s: State)
    requires Sound(e, s)
    ensures Coherent(s) && Tidy(s)
  {
  }

  lemma NotFound(docs: map<Doc, DocRow>, kb: Kb, text: string)
    requires forall d :: d in docs ==> docs[d].hash != text
    ensures !FindByHash(docs, kb, text)
  {
  }

  lemma SearchFills(e: Engine, s: State, kb: Kb, query: string)
    requires Lawful(e) && WellFormed(e, s) && Indexable(e, BuildHybrid(s.rows, kb).corpus)
    ensures kb in SearchState(e, s, kb, query).hybrids
  {
    hide BuildHybrid, BuildSequences, Hits, Indexable;
  }

  // ---------- writers that do not go through the service ----------

  /** The admin request to delete a document goes to the registry alone: points and caches stay. */
  function AdminDelete(s: State, kb: Kb, doc: Doc): State {
    if doc in s.docs && s.docs[doc].kb == kb then s.(rows := WithoutDoc(s.rows, doc), docs := s.docs - {doc}) else s
  }

  /** The chunk stage of the ingest pipeline writes the rows of a document, and invalidates nothing. */
  function PipelineChunks(s: State, kb: Kb, doc: Doc, ids: seq<Id>, chunks: seq<string>): State
    requires |ids| == |chunks|
  {
    s.(rows := SetChunks(s.rows, doc, NewRows(doc, kb, ids, chunks)), issued := s.issued + map id | id in ids :: doc)
  }

  ghost predicate Cached(s: State, kb: Kb) {
    kb in s.hybrids || kb in s.sequences
  }

  /** An admin deletion keeps the caches coherent if and only if it deletes no row or the KB is not
      cached. */
  lemma AdminDeleteKeepsIff(s: State, kb: Kb, doc: Doc)
    requires Coherent(s) && Tidy(s)
    ensures Coherent(AdminDelete(s, kb, doc)) <==>
              !(doc in s.docs && s.docs[doc].kb == kb && HasRowsOf(s.rows, doc, kb) && Cached(s, kb))
  {
    hide BuildHybrid, BuildSequences, OfKb, WithoutDoc, UniqueIds;
    if doc in s.docs && s.docs[doc].kb == kb {
      var s' := AdminDelete(s, kb, doc);
      OwnKbOnly(s, kb, doc);
      forall k | k != kb || !HasRowsOf(s.rows, doc, kb)
        ensures BuildHybrid(s'.rows, k) == BuildHybrid(s.rows, k)
        ensures BuildSequences(s'.rows, k) == BuildSequences(s.rows, k)
      {
        RemovalIsSeen(s.rows, doc, k);
        BuiltFromOwnRows(s'.rows, s.rows, k);
      }
      if HasRowsOf(s.rows, doc, kb) {
        RemovalIsSeen(s.rows, doc, kb);
        LengthsDiffer(s'.rows, s.rows, kb);
      }
    }
  }

  /** A new id shows in the ids a KB lists. */
  lemma NewIdIsSeen(s: State, rows': seq<ChunkRow>, kb: Kb, r: ChunkRow)
    requires Tidy(s) && r in rows' && r.kb == kb && r.id !in s.issued
    ensures BuildHybrid(rows', kb) != BuildHybrid(s.rows, kb)
    ensures BuildSequences(rows', kb) != BuildSequences(s.rows, kb)
  {
    ListMembers(rows', kb);
    ListMembers(s.rows, kb);
    hide ListChunks, UniqueIds;
    var old', list := ListChunks(s.rows, kb), ListChunks(rows', kb);
    var i :| 0 <= i < |list| && list[i] == r;
    assert RowIds(list)[i] == r.id;
    if i < |old'| {
      assert old'[i] in old' && OwnedRow(s, old'[i]);
      assert RowIds(old')[i] != r.id;
    }
    assert RowIds(list) != RowIds(old');
  }

  lemma ReplacedRows(s: State, kb: Kb, doc: Doc, ids: seq<Id>, chunks: seq<string>, k: Kb)
    requires Tidy(s) && doc in s.docs && s.docs[doc].kb == kb && |ids| == |chunks| && k != kb
    ensures OfKb(PipelineChunks(s, kb, doc, ids, chunks).rows, k) == OfKb(s.rows, k)
  {
    hide OfKb, WithoutDoc, NewRows, UniqueIds;
    OwnKbOnly(s, kb, doc);
    RemovalIsSeen(s.rows, doc, k);
    NewRowsOfKb(doc, kb, ids, chunks, k);
    OfKbConcat(WithoutDoc(s.rows, doc), NewRows(doc, kb, ids, chunks), k);
  }

  /** The pipeline's chunk stage keeps the caches coherent if and only if the KB is not cached. */
  lemma PipelineKeepsIff(s: State, kb: Kb, doc: Doc, ids: seq<Id>, chunks: seq<string>)
    requires Coherent(s) && Tidy(s) && doc in s.docs && s.docs[doc].kb == kb
    requires |ids| == |chunks| && ids != [] && forall id :: id in ids ==> id !in s.issued
    ensures Coherent(PipelineChunks(s, kb, doc, ids, chunks)) <==> !Cached(s, kb)
  {
    hide BuildHybrid, BuildSequences, OfKb, WithoutDoc, NewRows, Tidy;
    var s' := PipelineChunks(s, kb, doc, ids, chunks);
    forall k | k != kb
      ensures BuildHybrid(s'.rows, k) == BuildHybrid(s.rows, k)
      ensures BuildSequences(s'.rows, k) == BuildSequences(s.rows, k)
    {
      ReplacedRows(s, kb, doc, ids, chunks, k);
      BuiltFromOwnRows(s'.rows, s.rows, k);
    }
    NewRowAt(doc, kb, ids, chunks, 0);
    assert ids[0] in ids;
    NewIdIsSeen(s, s'.rows, kb, NewRows(doc, kb, ids, chunks)[0]);
  }

  ghost predicate Returned(id: Id, results: seq<SearchResult>) {
    exists i :: 0 <= i < |results| && results[i].chunkId == id
  }

  ghost predicate IsHit(id: Id, hits: seq<HybridHit>) {
    exists i :: 0 <= i < |hits| && hits[i].chunkId == id
  }

  /** When nothing is cut off, the hits are what is returned. */
  lemma AllHitsReturned(e: Engine, s: State, hybrid: Hybrid, seqs: Sequences, kb: Kb, query: string, topK: nat, id: Id)
    requires Lawful(e) && |hybrid.ids| == |hybrid.corpus|
    requires |Hits(e, s, hybrid, kb, query)| <= Min(e.rerankTopK, topK)
    ensures Returned(id, Answer(e, s, hybrid, seqs, kb, query, topK)) <==> IsHit(id, Hits(e, s, hybrid, kb, query))
  {
    hide Hits, SortBy;
    var hits := Hits(e, s, hybrid, kb, query);
    var scores := e.rerank(query, HitTexts(s.rows, hits));
    var pairs := Zip(hits, scores);
    var sorted := SortBy(pairs, PairAbove);
    SortElements(pairs, PairAbove);
    var results := Answer(e, s, hybrid, seqs, kb, query, topK);
    assert |results| == |sorted| && forall i :: 0 <= i < |results| ==> results[i].chunkId == sorted[i].hit.chunkId;
    if Returned(id, results) {
      var i :| 0 <= i < |results| && results[i].chunkId == id;
      var j := SortedFrom(pairs, PairAbove, i);
      assert hits[j].chunkId == id;
    }
    if IsHit(id, hits) {
      var i :| 0 <= i < |hits| && hits[i].chunkId == id;
      var j := SortedHas(pairs, PairAbove, i);
      assert results[j].chunkId == id;
    }
  }

  /** After an admin deletion a search of a cached KB has the hits it had before. Where nothing is cut
      off it returns the same ids, so a chunk of the deleted document is returned if and only if it
      was before; and it then comes without document and text. */
  lemma AdminDeletedReturnedIff(e: Engine, s: State, kb: Kb, doc: Doc, query: string, topK: nat)
    requires Lawful(e) && WellFormed(e, s) && kb in s.hybrids
    requires |Hits(e, s, s.hybrids[kb], kb, query)| <= Min(e.rerankTopK, topK)
    ensures var s' := AdminDelete(s, kb, doc);
            var before, after := SearchAnswer(e, s, kb, query, topK), SearchAnswer(e, s', kb, query, topK);
            && before.Some? && after.Some?
            && (forall id :: Returned(id, after.value) <==> Returned(id, before.value))
            && (forall result :: result in after.value && !HasRow(s'.rows, result.chunkId) ==>
                  result.docId == "" && result.content == "")
  {
    hide BuildHybrid, BuildSequences, Hits, Answer, Indexable, Returned, WithoutDoc, ResultOf;
    var s' := AdminDelete(s, kb, doc);
    var hybrid := s.hybrids[kb];
    SameHits(e, s, s', hybrid, kb, query);
    var seqs, seqs' := ChunkSequences(s, kb).sequences[kb], ChunkSequences(s', kb).sequences[kb];
    forall id
      ensures Returned(id, Answer(e, s', hybrid, seqs', kb, query, topK))
              <==> Returned(id, Answer(e, s, hybrid, seqs, kb, query, topK))
    {
      AllHitsReturned(e, s, hybrid, seqs, kb, query, topK, id);
      AllHitsReturned(e, s', hybrid, seqs', kb, query, topK, id);
    }
    forall result | result in Answer(e, s', hybrid, seqs', kb, query, topK) && !HasRow(s'.rows, result.chunkId)
      ensures result.docId == "" && result.content == ""
    {
      ResultsHaveHits(e, s', hybrid, seqs', kb, query, topK);
      var hit, score :| hit in Hits(e, s', hybrid, kb, query) && result == ResultOf(s'.rows, seqs', hit, score);
      RowlessIsBlank(s'.rows, seqs', hit, score);
    }
  }

  lemma SameHits(e: Engine, s: State, s': State, hybrid: Hybrid, kb: Kb, query: string)
    requires Lawful(e) && |hybrid.ids| == |hybrid.corpus| && s'.points == s.points
    ensures Hits(e, s', hybrid, kb, query) == Hits(e, s, hybrid, kb, query)
  {
  }

  lemma RowlessIsBlank(rows: seq<ChunkRow>, seqs: Sequences, hit: HybridHit, score: real)
    ensures var result := ResultOf(rows, seqs, hit, score);
            !HasRow(rows, result.chunkId) ==> result.docId == "" && result.content == ""
  {
    hide ContentMap, DocMap, Parent.Expanded;
    MapsAreRows(rows);
  }
}
