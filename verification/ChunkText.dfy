/** core/ingest/chunker.py, chunk_text: greedy merge of the split pieces, a tail of
    `overlap` characters carried into the next chunk, and a hard split of long pieces. */
module ChunkText {
  import opened Bounds
  import opened Wrappers
  import opened Chunker

  /** A chunk together with how it came about: its first `carry` characters repeat the end
      of the chunk before it; `long` marks the segments of a piece longer than the limit. */
  datatype Seg = Seg(text: string, start: int, end: int, carry: nat, long: bool)

  /** The settled chunks and the chunk being filled. */
  datatype Merge = Merge(done: seq<Seg>, open: Option<Seg>)

  // ---------- reference merge ----------

  /** What a settled chunk leaves behind as the head of the next one. */
  function Tail(s: Seg, overlap: int): Option<Seg> {
    var n := Min(overlap, |s.text|);
    if n <= 0 then None else Some(Seg(s.text[|s.text| - n..], s.end - n, s.end, n, false))
  }

  function Extend(open: Option<Seg>, p: Piece): Seg {
    match open
    case None => Seg(p.text, p.start, p.end, 0, false)
    case Some(o) => o.(text := o.text + p.text, end := p.end)
  }

  /** Where text[i:i + size] ends in a text of length n: a negative bound counts from the end. */
  function SliceEnd(i: nat, size: int, n: nat): (end: nat)
    requires i < n
    ensures i <= end <= n && (size >= 0 ==> end == Min(i + size, n))
  {
    if i + size < 0 then Max(i, n + i + size) else Max(i, Min(i + size, n))
  }

  function HardSeg(p: Piece, i: nat, size: int, overlap: int): Seg
    requires i < |p.text|
  {
    var t := p.text[i..SliceEnd(i, size, |p.text|)];
    Seg(t, p.start + i, p.start + i + |t|, if i == 0 || overlap < 0 then 0 else Min(overlap, |t|), true)
  }

  /** The segments of a long piece from position i on, one every size - overlap characters. */
  function HardSplit(p: Piece, i: nat, size: int, overlap: int): seq<Seg>
    requires overlap < size
    decreases |p.text| - i
  {
    if i >= |p.text| then []
    else [HardSeg(p, i, size, overlap)] + HardSplit(p, i + size - overlap, size, overlap)
  }

  function Closed(m: Merge): seq<Seg> {
    if m.open.None? then m.done else m.done + [m.open.value]
  }

  function Step(m: Merge, p: Piece, size: int, overlap: int): Merge
    requires overlap < size
  {
    if |p.text| > size then
      Merge(Closed(m) + HardSplit(p, 0, size, overlap), None)
    else if m.open.Some? && |m.open.value.text| + |p.text| > size then
      Merge(Closed(m), Some(Extend(Tail(m.open.value, overlap), p)))
    else
      Merge(m.done, Some(Extend(m.open, p)))
  }

  function MergeAll(ps: seq<Piece>, size: int, overlap: int): Merge
    requires overlap < size
  {
    if ps == [] then Merge([], None)
    else Step(MergeAll(ps[..|ps| - 1], size, overlap), ps[|ps| - 1], size, overlap)
  }

  function Segs(ps: seq<Piece>, size: int, overlap: int): seq<Seg>
    requires overlap < size
  {
    Closed(MergeAll(ps, size, overlap))
  }

  // ---------- what the merge keeps ----------

  /** Piece i follows piece i - 1 in the source and is the source slice at its offsets. */
  ghost predicate PieceAt(src: string, ps: seq<Piece>, i: int)
    requires 0 <= i < |ps|
  {
    && 0 <= ps[i].start < ps[i].end <= |src|
    && ps[i].text == src[ps[i].start..ps[i].end]
    && (i > 0 ==> ps[i - 1].end <= ps[i].start)
  }

  ghost predicate InSource(src: string, ps: seq<Piece>) {
    forall i :: 0 <= i < |ps| ==> PieceAt(src, ps, i)
  }

  /** Lengths and offsets of one chunk. */
  ghost predicate Fits(src: string, s: Seg, size: nat, overlap: nat) {
    && 0 < |s.text| <= (if s.long then size else size + overlap)
    && 0 <= s.start && s.start + |s.text| <= s.end <= |src|
    && s.text[|s.text| - 1] == src[s.end - 1]
    && s.carry <= |s.text|
    && (s.carry == 0 ==> s.text[0] == src[s.start])
  }

  /** How a chunk follows the one before it. */
  ghost predicate Follows(q: Seg, s: Seg, overlap: nat) {
    && q.start <= s.start && q.end <= s.end
    && s.carry <= |q.text| && s.carry <= |s.text|
    && s.text[..s.carry] == q.text[|q.text| - s.carry..]
    && (if s.carry == 0 then q.end <= s.start else s.start == q.end - s.carry)
    && (!s.long ==> s.carry == if q.long then 0 else Min(overlap, |q.text|))
    && (s.long ==> s.carry == 0 || (q.long && s.carry == Min(overlap, |s.text|)))
  }

  ghost predicate LinkOk(src: string, segs: seq<Seg>, size: nat, overlap: nat, i: int)
    requires 0 <= i < |segs|
  {
    && Fits(src, segs[i], size, overlap)
    && (i == 0 ==> segs[i].carry == 0)
    && (i > 0 ==> Follows(segs[i - 1], segs[i], overlap))
  }

  ghost predicate Chain(src: string, segs: seq<Seg>, size: nat, overlap: nat) {
    forall i :: 0 <= i < |segs| ==> LinkOk(src, segs, size, overlap, i)
  }

  /** The text of all pieces. */
  ghost function Joined(ps: seq<Piece>): string {
    if ps == [] then "" else Joined(ps[..|ps| - 1]) + ps[|ps| - 1].text
  }

  /** The characters of a chunk that do not repeat the chunk before it. */
  ghost function Fresh(s: Seg): string {
    s.text[Min(s.carry, |s.text|)..]
  }

  ghost function Novel(segs: seq<Seg>): string {
    if segs == [] then "" else Novel(segs[..|segs| - 1]) + Fresh(segs[|segs| - 1])
  }

  ghost predicate EndsWith(segs: seq<Seg>, q: Seg) {
    segs != [] && segs[|segs| - 1] == q
  }

  lemma Assoc<T>(a: seq<T>, b: seq<T>, c: seq<T>)
    ensures (a + b) + c == a + (b + c)
  {
  }

  lemma JoinedSnoc(ps: seq<Piece>, p: Piece)
    ensures Joined(ps + [p]) == Joined(ps) + p.text
  {
    assert (ps + [p])[..|ps|] == ps;
  }

  lemma NovelSnoc(segs: seq<Seg>, s: Seg)
    ensures Novel(segs + [s]) == Novel(segs) + Fresh(s)
  {
    assert (segs + [s])[..|segs|] == segs;
  }

  lemma ChainSnoc(src: string, segs: seq<Seg>, s: Seg, size: nat, overlap: nat)
    requires Chain(src, segs, size, overlap) && Fits(src, s, size, overlap)
    requires segs == [] ==> s.carry == 0
    requires segs != [] ==> Follows(segs[|segs| - 1], s, overlap)
    ensures Chain(src, segs + [s], size, overlap) && EndsWith(segs + [s], s)
  {
    hide Fits, Follows;
    forall i | 0 <= i < |segs + [s]| ensures LinkOk(src, segs + [s], size, overlap, i) {
      assert i < |segs| ==> LinkOk(src, segs, size, overlap, i);
    }
  }

  lemma ChainInit(src: string, segs: seq<Seg>, s: Seg, size: nat, overlap: nat)
    requires Chain(src, segs + [s], size, overlap)
    ensures Chain(src, segs, size, overlap) && Fits(src, s, size, overlap)
    ensures segs == [] ==> s.carry == 0
    ensures segs != [] ==> Follows(segs[|segs| - 1], s, overlap)
  {
    hide Fits, Follows;
    assert LinkOk(src, segs + [s], size, overlap, |segs|);
    forall i | 0 <= i < |segs| ensures LinkOk(src, segs, size, overlap, i) {
      assert LinkOk(src, segs + [s], size, overlap, i);
    }
  }

  /** A chunk that repeats nothing may follow whatever ended before it. */
  lemma FirstAfter(src: string, segs: seq<Seg>, s: Seg, size: nat, overlap: nat)
    requires Chain(src, segs, size, overlap) && s.carry == 0
    requires segs != [] ==> segs[|segs| - 1].end <= s.start <= s.end && (segs[|segs| - 1].long || s.long)
    ensures segs != [] ==> Follows(segs[|segs| - 1], s, overlap)
  {
    if segs != [] {
      var q := segs[|segs| - 1];
      assert LinkOk(src, segs, size, overlap, |segs| - 1);
      assert s.text[..0] == q.text[|q.text|..];
    }
  }

  // ---------- long pieces ----------

  ghost predicate LongPiece(src: string, p: Piece) {
    0 <= p.start < p.end <= |src| && p.text == src[p.start..p.end]
  }

  lemma SliceSlice<T>(t: seq<T>, a: nat, b: nat, c: nat, d: nat)
    requires a <= b <= |t| && c <= d <= b - a
    ensures t[a..b][c..d] == t[a + c..a + d]
  {
    var u := t[a..b];
    assert forall k :: 0 <= k < |u| ==> u[k] == t[a + k];
    assert u[c..d] == t[a + c..a + d];
  }

  lemma DropSlice<T>(t: seq<T>, a: nat, c: nat, d: nat)
    requires c <= d && a + d <= |t|
    ensures t[a..][c..d] == t[a + c..a + d] && t[a..][d..] == t[a + d..]
  {
    assert t[a..][c..d] == t[a + c..a + d];
  }

  lemma HardFits(src: string, p: Piece, i: nat, size: nat, overlap: nat)
    requires overlap < size && i < |p.text| && LongPiece(src, p)
    ensures Fits(src, HardSeg(p, i, size, overlap), size, overlap)
  {
  }

  lemma HardFollows(p: Piece, i: nat, size: nat, overlap: nat)
    requires overlap < size && size - overlap <= i < |p.text|
    ensures Follows(HardSeg(p, i - (size - overlap), size, overlap), HardSeg(p, i, size, overlap), overlap)
    ensures Min(i + overlap, |p.text|) - i == HardSeg(p, i, size, overlap).carry
  {
    var q, s := HardSeg(p, i - (size - overlap), size, overlap), HardSeg(p, i, size, overlap);
    var c, a := s.carry, i - (size - overlap);
    SliceSlice(p.text, i, i + |s.text|, 0, c);
    SliceSlice(p.text, a, a + |q.text|, |q.text| - c, |q.text|);
    assert a + |q.text| == i + c;
  }

  /** Where the segments up to position i have got to in a long piece. */
  ghost function Reached(p: Piece, i: nat, overlap: nat): int {
    if i == 0 then 0 else Min(i + overlap, |p.text|)
  }

  /** The state of the hard split loop before the segment at position i. */
  ghost predicate Splitting(segs: seq<Seg>, p: Piece, i: nat, size: nat, overlap: nat)
    requires overlap < size
  {
    if i == 0 then segs != [] ==> segs[|segs| - 1].end <= p.start
    else size - overlap <= i < |p.text| + size - overlap
         && EndsWith(segs, HardSeg(p, i - (size - overlap), size, overlap))
  }

  lemma HardFresh(p: Piece, i: nat, size: nat, overlap: nat)
    requires overlap < size && i < |p.text|
    ensures Fresh(HardSeg(p, i, size, overlap)) + p.text[Reached(p, i + (size - overlap), overlap)..]
            == p.text[Reached(p, i, overlap)..]
  {
    var s := HardSeg(p, i, size, overlap);
    var r, r' := Reached(p, i, overlap), Reached(p, i + (size - overlap), overlap);
    assert i + s.carry == r && r' == i + |s.text|;
    assert Fresh(s) == p.text[r..r'];
    assert p.text[r..] == p.text[r..r'] + p.text[r'..];
  }

  lemma HardNext(src: string, segs: seq<Seg>, p: Piece, i: nat, size: nat, overlap: nat)
    requires overlap < size && i < |p.text| && LongPiece(src, p)
    requires Chain(src, segs, size, overlap) && Splitting(segs, p, i, size, overlap)
    ensures var s := HardSeg(p, i, size, overlap);
            && Chain(src, segs + [s], size, overlap)
            && Splitting(segs + [s], p, i + (size - overlap), size, overlap)
            && Novel(segs + [s]) + p.text[Reached(p, i + (size - overlap), overlap)..]
               == Novel(segs) + p.text[Reached(p, i, overlap)..]
  {
    hide Fits, Follows, Chain, Novel, Fresh;
    var s := HardSeg(p, i, size, overlap);
    HardFits(src, p, i, size, overlap);
    if i > 0 {
      HardFollows(p, i, size, overlap);
    } else {
      FirstAfter(src, segs, s, size, overlap);
    }
    ChainSnoc(src, segs, s, size, overlap);
    NovelSnoc(segs, s);
    HardFresh(p, i, size, overlap);
    Assoc(Novel(segs), Fresh(s), p.text[Reached(p, i + (size - overlap), overlap)..]);
  }

  lemma HardSplitStep(segs: seq<Seg>, p: Piece, i: nat, size: nat, overlap: nat)
    requires overlap < size
    ensures segs + HardSplit(p, i, size, overlap)
            == if i < |p.text|
               then (segs + [HardSeg(p, i, size, overlap)]) + HardSplit(p, i + size - overlap, size, overlap)
               else segs
  {
  }

  lemma {:induction false} HardSplitKeeps(src: string, segs: seq<Seg>, p: Piece, i: nat, size: nat, overlap: nat)
    requires overlap < size && LongPiece(src, p)
    requires Chain(src, segs, size, overlap) && Splitting(segs, p, i, size, overlap)
    ensures var all := segs + HardSplit(p, i, size, overlap);
            && Chain(src, all, size, overlap)
            && Novel(all) == Novel(segs) + p.text[Reached(p, i, overlap)..]
            && all != [] && all[|all| - 1].long && all[|all| - 1].end == p.end
    decreases |p.text| - i
  {
    hide Chain, Novel, HardSplit;
    HardSplitStep(segs, p, i, size, overlap);
    if i < |p.text| {
      HardNext(src, segs, p, i, size, overlap);
      HardSplitKeeps(src, segs + [HardSeg(p, i, size, overlap)], p, i + size - overlap, size, overlap);
    }
  }

  // ---------- one piece ----------

  ghost predicate Kept(src: string, m: Merge, ps: seq<Piece>, size: nat, overlap: nat) {
    && Chain(src, Closed(m), size, overlap)
    && Novel(Closed(m)) == Joined(ps)
    && (m.open.Some? ==> !m.open.value.long)
    && (m.open.None? && m.done != [] ==> m.done[|m.done| - 1].long)
    && (ps == [] <==> Closed(m) == [])
    && (ps != [] ==> Closed(m)[|Closed(m)| - 1].end == ps[|ps| - 1].end)
  }

  lemma OpenKeeps(src: string, m: Merge, ps: seq<Piece>, p: Piece, size: nat, overlap: nat)
    requires overlap < size && Kept(src, m, ps, size, overlap) && PieceAt(src, ps + [p], |ps|)
    requires |p.text| <= size && m.open.None?
    ensures Kept(src, Step(m, p, size, overlap), ps + [p], size, overlap)
  {
    var s := Extend(None, p);
    FirstAfter(src, m.done, s, size, overlap);
    ChainSnoc(src, m.done, s, size, overlap);
    NovelSnoc(m.done, s);
    JoinedSnoc(ps, p);
  }

  lemma AppendSlices(a: string, b: string, c: nat)
    requires c <= |a|
    ensures (a + b)[..c] == a[..c] && (a + b)[c..] == a[c..] + b
  {
  }

  lemma AppendedFits(src: string, o: Seg, p: Piece, size: nat, overlap: nat)
    requires Fits(src, o, size, overlap) && !o.long && LongPiece(src, p) && o.end <= p.start
    requires |o.text| + |p.text| <= size
    ensures Fits(src, Extend(Some(o), p), size, overlap)
  {
    assert p.text[|p.text| - 1] == src[p.end - 1];
  }

  lemma AppendedFollows(q: Seg, o: Seg, p: Piece, overlap: nat)
    requires Follows(q, o, overlap) && !o.long && o.end <= p.end
    ensures Follows(q, Extend(Some(o), p), overlap)
  {
    AppendSlices(o.text, p.text, o.carry);
  }

  /** A piece that fits is appended: the chunk keeps its place and its repeated head. */
  lemma Appended(src: string, o: Seg, p: Piece, size: nat, overlap: nat)
    requires Fits(src, o, size, overlap) && !o.long && LongPiece(src, p) && o.end <= p.start
    requires |o.text| + |p.text| <= size
    ensures var e := Extend(Some(o), p);
            && Fits(src, e, size, overlap) && !e.long && e.carry == o.carry && e.end == p.end
            && Fresh(e) == Fresh(o) + p.text
            && forall q :: Follows(q, o, overlap) ==> Follows(q, e, overlap)
  {
    AppendedFits(src, o, p, size, overlap);
    AppendSlices(o.text, p.text, o.carry);
    hide Follows;
    forall q | Follows(q, o, overlap) ensures Follows(q, Extend(Some(o), p), overlap) {
      AppendedFollows(q, o, p, overlap);
    }
  }

  /** After a flush the next chunk opens with the tail of the settled one and then the piece. */
  lemma Flushed(src: string, o: Seg, p: Piece, size: nat, overlap: nat)
    requires Fits(src, o, size, overlap) && !o.long && LongPiece(src, p) && o.end <= p.start
    requires |p.text| <= size
    ensures var e := Extend(Tail(o, overlap), p);
            Fits(src, e, size, overlap) && !e.long && Follows(o, e, overlap) && Fresh(e) == p.text && e.end == p.end
  {
    hide Fits, Follows, Fresh;
    FitsNotEmpty(src, o, size, overlap);
    if overlap == 0 {
      FlushedWhole(src, o, p, size, overlap);
    } else {
      FlushedTail(src, o, p, Min(overlap, |o.text|), size, overlap);
    }
  }

  lemma FitsNotEmpty(src: string, s: Seg, size: nat, overlap: nat)
    requires Fits(src, s, size, overlap)
    ensures |s.text| > 0
  {
  }

  lemma FlushedTail(src: string, o: Seg, p: Piece, n: nat, size: nat, overlap: nat)
    requires Fits(src, o, size, overlap) && !o.long && LongPiece(src, p) && o.end <= p.start
    requires |p.text| <= size && n == Min(overlap, |o.text|) && n > 0
    ensures var tail := o.text[|o.text| - n..];
            var e := Seg(tail + p.text, o.end - n, p.end, n, false);
            Fits(src, e, size, overlap) && Follows(o, e, overlap) && Fresh(e) == p.text
  {
    TailFirst(o.text[|o.text| - n..], p.text);
  }

  lemma FlushedWhole(src: string, o: Seg, p: Piece, size: nat, overlap: nat)
    requires Fits(src, o, size, overlap) && !o.long && LongPiece(src, p) && o.end <= p.start
    requires |p.text| <= size && overlap == 0
    ensures var e := Extend(None, p);
            Fits(src, e, size, overlap) && Follows(o, e, overlap) && Fresh(e) == p.text
  {
    assert p.text[..0] == o.text[|o.text|..];
  }

  lemma TailFirst(tail: string, t: string)
    requires t != ""
    ensures (tail + t)[..|tail|] == tail && (tail + t)[|tail|..] == t
    ensures (tail + t)[|tail + t| - 1] == t[|t| - 1]
  {
  }

  lemma AppendKeeps(src: string, m: Merge, ps: seq<Piece>, p: Piece, size: nat, overlap: nat)
    requires overlap < size && Kept(src, m, ps, size, overlap) && PieceAt(src, ps + [p], |ps|)
    requires m.open.Some? && |m.open.value.text| + |p.text| <= size
    ensures Kept(src, Step(m, p, size, overlap), ps + [p], size, overlap)
  {
    hide Fits, Follows, Chain, Novel, Fresh, Joined, Extend;
    var o := m.open.value;
    var e := Extend(m.open, p);
    ChainInit(src, m.done, o, size, overlap);
    Appended(src, o, p, size, overlap);
    ChainSnoc(src, m.done, e, size, overlap);
    NovelSnoc(m.done, o);
    NovelSnoc(m.done, e);
    Assoc(Novel(m.done), Fresh(o), p.text);
    JoinedSnoc(ps, p);
  }

  lemma FlushKeeps(src: string, m: Merge, ps: seq<Piece>, p: Piece, size: nat, overlap: nat)
    requires overlap < size && Kept(src, m, ps, size, overlap) && PieceAt(src, ps + [p], |ps|)
    requires |p.text| <= size && m.open.Some? && |m.open.value.text| + |p.text| > size
    ensures Kept(src, Step(m, p, size, overlap), ps + [p], size, overlap)
  {
    hide Fits, Follows, Chain, Novel, Fresh, Joined, Extend, Tail;
    var o := m.open.value;
    var e := Extend(Tail(o, overlap), p);
    ChainInit(src, m.done, o, size, overlap);
    Flushed(src, o, p, size, overlap);
    ChainSnoc(src, Closed(m), e, size, overlap);
    NovelSnoc(Closed(m), e);
    JoinedSnoc(ps, p);
  }

  lemma LongKeeps(src: string, m: Merge, ps: seq<Piece>, p: Piece, size: nat, overlap: nat)
    requires overlap < size && Kept(src, m, ps, size, overlap) && PieceAt(src, ps + [p], |ps|)
    requires |p.text| > size
    ensures Kept(src, Step(m, p, size, overlap), ps + [p], size, overlap)
  {
    HardSplitKeeps(src, Closed(m), p, 0, size, overlap);
    assert p.text[0..] == p.text;
    JoinedSnoc(ps, p);
  }

  lemma {:induction false} MergeKeeps(src: string, ps: seq<Piece>, size: nat, overlap: nat)
    requires overlap < size && InSource(src, ps)
    ensures Kept(src, MergeAll(ps, size, overlap), ps, size, overlap)
    decreases |ps|
  {
    if ps != [] {
      var init, p := ps[..|ps| - 1], ps[|ps| - 1];
      assert init + [p] == ps;
      forall i | 0 <= i < |init| ensures PieceAt(src, init, i) {
        assert PieceAt(src, ps, i);
      }
      MergeKeeps(src, init, size, overlap);
      var m := MergeAll(init, size, overlap);
      assert PieceAt(src, ps, |init|);
      if |p.text| > size {
        LongKeeps(src, m, init, p, size, overlap);
      } else if m.open.None? {
        OpenKeeps(src, m, init, p, size, overlap);
      } else if |m.open.value.text| + |p.text| > size {
        FlushKeeps(src, m, init, p, size, overlap);
      } else {
        AppendKeeps(src, m, init, p, size, overlap);
      }
    }
  }

  // ---------- the program ----------

  datatype Span = Span(text: string, start: int, end: int)

  function Strip(segs: seq<Seg>): seq<Span> {
    seq(|segs|, i requires 0 <= i < |segs| => Span(segs[i].text, segs[i].start, segs[i].end))
  }

  lemma StripConcat(a: seq<Seg>, b: seq<Seg>)
    ensures Strip(a + b) == Strip(a) + Strip(b)
  {
  }

  /** The buffered pieces and their total length describe the chunk being filled. */
  ghost predicate Buffers(buf: seq<Piece>, size: nat, open: Option<Seg>) {
    if buf == [] then open.None? && size == 0
    else open.Some?
         && open.value.text == Joined(buf) && size == |Joined(buf)|
         && open.value.start == buf[0].start && open.value.end == buf[|buf| - 1].end
  }

  lemma BufferGrows(buf: seq<Piece>, size: nat, open: Option<Seg>, p: Piece)
    requires Buffers(buf, size, open)
    ensures Buffers(buf + [p], size + |p.text|, Some(Extend(open, p)))
  {
    JoinedSnoc(buf, p);
  }

  lemma JoinedOne(p: Piece)
    ensures Joined([p]) == p.text
  {
    assert [p] == [] + [p];
    JoinedSnoc([], p);
  }

  method JoinTexts(buf: seq<Piece>) returns (joined: string)
    ensures joined == Joined(buf)
  {
    joined := "";
    for i := 0 to |buf|
      invariant joined == Joined(buf[..i])
    {
      assert buf[..i + 1] == buf[..i] + [buf[i]];
      JoinedSnoc(buf[..i], buf[i]);
      joined := joined + buf[i].text;
    }
    assert buf[..|buf|] == buf;
  }

  /** flush: settle the buffer as a chunk and keep its last `keep` characters as the next head. */
  method Flush(merged: seq<Span>, buf: seq<Piece>, size: nat, keep: int, ghost o: Seg)
    returns (merged': seq<Span>, buf': seq<Piece>, size': nat)
    requires buf != [] && Buffers(buf, size, Some(o))
    ensures merged' == merged + [Span(o.text, o.start, o.end)]
    ensures Buffers(buf', size', Tail(o, keep)) && (keep == 0 ==> Tail(o, keep).None?)
  {
    var joined := JoinTexts(buf);
    var last := buf[|buf| - 1];
    merged' := merged + [Span(joined, buf[0].start, last.end)];
    var tail := if keep > 0 then joined[|joined| - Min(keep, |joined|)..] else "";
    if tail != "" {
      var head := Piece(tail, last.end - |tail|, last.end);
      JoinedOne(head);
      buf' := [head];
      size' := |tail|;
    } else {
      buf' := [];
      size' := 0;
    }
  }

  lemma MergeAllTake(ps: seq<Piece>, k: nat, size: int, overlap: int)
    requires overlap < size && k < |ps|
    ensures MergeAll(ps[..k + 1], size, overlap) == Step(MergeAll(ps[..k], size, overlap), ps[k], size, overlap)
  {
    assert ps[..k + 1][..k] == ps[..k];
  }

  /** The hard split loop: one segment every size - overlap characters. */
  method SplitLong(merged: seq<Span>, p: Piece, size: int, overlap: int) returns (merged': seq<Span>)
    requires overlap < size
    ensures merged' == merged + Strip(HardSplit(p, 0, size, overlap))
  {
    merged' := merged;
    ghost var all := merged + Strip(HardSplit(p, 0, size, overlap));
    var i := 0;
    while i < |p.text|
      invariant merged' + Strip(HardSplit(p, i, size, overlap)) == all
      decreases |p.text| - i
    {
      var seg := p.text[i..SliceEnd(i, size, |p.text|)];
      var span := Span(seg, p.start + i, p.start + i + |seg|);
      assert Strip(HardSplit(p, i, size, overlap)) == [span] + Strip(HardSplit(p, i + size - overlap, size, overlap));
      merged' := merged' + [span];
      i := i + (size - overlap);
    }
  }

  lemma StripClosed(m: Merge)
    ensures m.open.None? ==> Strip(Closed(m)) == Strip(m.done)
    ensures m.open.Some? ==>
              Strip(Closed(m)) == Strip(m.done) + [Span(m.open.value.text, m.open.value.start, m.open.value.end)]
  {
  }

  lemma MergeStart(ps: seq<Piece>, size: int, overlap: int)
    requires overlap < size
    ensures MergeAll(ps[..0], size, overlap) == Merge([], None) && Strip([]) == []
    ensures MergeAll(ps[..|ps|], size, overlap) == MergeAll(ps, size, overlap)
  {
    assert ps[..|ps|] == ps;
  }

  /** chunk_text after its argument check. */
  method MergePieces(pieces: seq<Piece>, size: int, overlap: int) returns (merged: seq<Span>)
    requires overlap < size
    ensures merged == Strip(Segs(pieces, size, overlap))
  {
    hide Strip, HardSplit, MergeAll, Tail, Joined;
    merged := [];
    var buf: seq<Piece>, total: nat := [], 0;
    ghost var m := Merge([], None);
    MergeStart(pieces, size, overlap);
    for k := 0 to |pieces|
      invariant m == MergeAll(pieces[..k], size, overlap)
      invariant merged == Strip(m.done)
      invariant buf == [] <==> m.open.None?
      invariant Buffers(buf, total, m.open)
    {
      var piece := pieces[k];
      MergeAllTake(pieces, k, size, overlap);
      StripClosed(m);
      if |piece.text| > size {
        if buf != [] {
          merged, buf, total := Flush(merged, buf, total, 0, m.open.value);
        }
        merged := SplitLong(merged, piece, size, overlap);
        StripConcat(Closed(m), HardSplit(piece, 0, size, overlap));
        m := Step(m, piece, size, overlap);
      } else {
        ghost var open := m.open;
        if buf != [] && total + |piece.text| > size {
          open := Tail(m.open.value, overlap);
          merged, buf, total := Flush(merged, buf, total, overlap, m.open.value);
        }
        BufferGrows(buf, total, open, piece);
        buf := buf + [piece];
        total := total + |piece.text|;
        m := Step(m, piece, size, overlap);
      }
    }
    StripClosed(m);
    if buf != [] {
      var joined := JoinTexts(buf);
      merged := merged + [Span(joined, buf[0].start, buf[|buf| - 1].end)];
    }
  }

  /** The numbered chunks the program returns for a merge. */
  ghost predicate Numbers(chunks: seq<Chunk>, segs: seq<Seg>) {
    && |chunks| == |segs|
    && forall i :: 0 <= i < |segs| ==> chunks[i] == Chunk(segs[i].text, i, segs[i].start, segs[i].end)
  }

  /** chunk_text; ValueError becomes Failure. Any size above the overlap is accepted, negative ones
      too. */
  method ChunkText(text: string, size: int, overlap: int, seps: seq<string>)
    returns (r: Result<seq<Chunk>, string>)
    ensures r.Failure? <==> size <= overlap || SplitResult(text, seps, 0).Failure?
    ensures r.Success? ==> Numbers(r.value, Segs(Pieces(text, BeforeEmpty(seps), 0), size, overlap))
  {
    if size <= overlap {
      return Failure("chunk_size must exceed overlap");
    }
    hide Segs, Pieces, BeforeEmpty;
    var split := Split(text, seps, 0);
    if split.Failure? {
      return Failure(split.error);
    }
    var pieces := split.value;
    var merged := MergePieces(pieces, size, overlap);
    var chunks := [];
    for i := 0 to |merged|
      invariant |chunks| == i
      invariant forall k :: 0 <= k < i ==> chunks[k] == Chunk(merged[k].text, k, merged[k].start, merged[k].end)
    {
      chunks := chunks + [Chunk(merged[i].text, i, merged[i].start, merged[i].end)];
    }
    return Success(chunks);
  }

  // ---------- the promises ----------

  lemma OpensInSource(src: string, rest: string, seps: seq<string>, base: nat, p: Piece)
    requires base <= |src| && rest == src[base..] && Opens(rest, seps, base, p)
    ensures LongPiece(src, p) && base <= p.start && rest[p.end - base..] == src[p.end..]
  {
    DropSlice(src, base, p.start - base, p.end - base);
  }

  lemma {:induction false} WeaveInSource(src: string, rest: string, seps: seq<string>, base: nat, ps: seq<Piece>)
    requires base <= |src| && rest == src[base..] && Weave(rest, seps, base, ps)
    ensures InSource(src, ps) && (ps != [] ==> base <= ps[0].start)
    decreases |ps|
  {
    hide Opens, InSource, SepRun, LongPiece;
    if ps != [] {
      var p := ps[0];
      OpensInSource(src, rest, seps, base, p);
      WeaveInSource(src, rest[p.end - base..], seps, p.end, ps[1..]);
      InSourceCons(src, p, ps[1..], ps);
    } else {
      NoPieces(src);
    }
  }

  lemma NoPieces(src: string)
    ensures InSource(src, [])
  {
  }

  lemma InSourceCons(src: string, p: Piece, rest: seq<Piece>, all: seq<Piece>)
    requires LongPiece(src, p) && InSource(src, rest) && (rest != [] ==> p.end <= rest[0].start) && all == [p] + rest
    ensures InSource(src, all)
  {
    forall i | 0 <= i < |all| ensures PieceAt(src, all, i) {
      if i > 0 {
        assert PieceAt(src, rest, i - 1);
        assert all[i] == rest[i - 1];
        assert i > 1 ==> all[i - 1] == rest[i - 2];
      }
    }
  }

  /** No character other than the separators between the pieces is lost or duplicated: the
      chunks without their repeated heads concatenate to the pieces, and the pieces with the
      separator runs between them are the text. Every chunk keeps its bounds, its offsets and
      its seam with the chunk before it. */
  lemma ChunksConserve(text: string, seps: seq<string>, size: nat, overlap: nat)
    requires ProperSeps(seps) && overlap < size
    ensures var pieces := Pieces(text, seps, 0);
            && Weave(text, seps, 0, pieces)
            && Novel(Segs(pieces, size, overlap)) == Joined(pieces)
            && Chain(text, Segs(pieces, size, overlap), size, overlap)
  {
    hide Pieces, Weave, MergeAll, Chain, Novel, Joined;
    var pieces := Pieces(text, seps, 0);
    SplitDecomposes(text, seps, 0, pieces);
    assert text[0..] == text;
    WeaveInSource(text, text, seps, 0, pieces);
    MergeKeeps(text, pieces, size, overlap);
  }

  lemma {:induction false} OffsetsMonotone(src: string, segs: seq<Seg>, size: nat, overlap: nat, i: nat, j: nat)
    requires Chain(src, segs, size, overlap) && i <= j < |segs|
    ensures segs[i].start <= segs[j].start && segs[i].end <= segs[j].end
    decreases j - i
  {
    if i < j {
      OffsetsMonotone(src, segs, size, overlap, i, j - 1);
      assert LinkOk(src, segs, size, overlap, j);
    }
  }

  lemma {:induction false} NoLongChunks(ps: seq<Piece>, size: nat, overlap: nat)
    requires overlap < size && forall p :: p in ps ==> |p.text| <= size
    ensures forall s :: s in Segs(ps, size, overlap) ==> !s.long
    ensures MergeAll(ps, size, overlap).open.Some? ==> !MergeAll(ps, size, overlap).open.value.long
    decreases |ps|
  {
    if ps != [] {
      NoLongChunks(ps[..|ps| - 1], size, overlap);
    }
  }

  /** When no piece exceeds the limit, each chunk begins with the last min(overlap, length)
      characters of the chunk before it. */
  lemma NeighboursOverlap(text: string, seps: seq<string>, size: nat, overlap: nat, i: nat)
    requires ProperSeps(seps) && overlap < size
    requires forall p :: p in Pieces(text, seps, 0) ==> |p.text| <= size
    requires 0 < i < |Segs(Pieces(text, seps, 0), size, overlap)|
    ensures var segs := Segs(Pieces(text, seps, 0), size, overlap);
            var n := Min(overlap, |segs[i - 1].text|);
            n <= |segs[i].text| && segs[i].text[..n] == segs[i - 1].text[|segs[i - 1].text| - n..]
  {
    hide Pieces, Weave, MergeAll, Novel, Joined, Segs, Fits;
    var segs := Segs(Pieces(text, seps, 0), size, overlap);
    ChunksConserve(text, seps, size, overlap);
    NoLongChunks(Pieces(text, seps, 0), size, overlap);
    assert LinkOk(text, segs, size, overlap, i);
    assert !segs[i].long && !segs[i - 1].long;
  }

  /** How many neighbouring chunks do not overlap in the source. */
  ghost function Gaps(segs: seq<Seg>): nat {
    if |segs| < 2 then 0
    else Gaps(segs[..|segs| - 1]) + if segs[|segs| - 2].end <= segs[|segs| - 1].start then 1 else 0
  }

  /** How many neighbouring pieces are not both within the limit. */
  ghost function LongSeams(ps: seq<Piece>, size: nat): nat {
    if |ps| < 2 then 0
    else LongSeams(ps[..|ps| - 1], size)
         + if |ps[|ps| - 2].text| > size || |ps[|ps| - 1].text| > size then 1 else 0
  }

  /** How many chunks repeat nothing. */
  ghost function Openers(segs: seq<Seg>): nat {
    if segs == [] then 0 else Openers(segs[..|segs| - 1]) + if segs[|segs| - 1].carry == 0 then 1 else 0
  }

  lemma {:induction false} OpenersConcat(a: seq<Seg>, b: seq<Seg>)
    ensures Openers(a + b) == Openers(a) + Openers(b)
    decreases |b|
  {
    if b == [] {
      assert a + b == a;
    } else {
      var init := b[..|b| - 1];
      OpenersConcat(a, init);
      assert (a + b)[..|a + b| - 1] == a + init;
    }
  }

  lemma OpenersSnoc(segs: seq<Seg>, s: Seg)
    ensures Openers(segs + [s]) == Openers(segs) + if s.carry == 0 then 1 else 0
  {
    assert (segs + [s])[..|segs|] == segs;
  }

  lemma {:induction false} HardSplitOpeners(p: Piece, i: nat, size: nat, overlap: nat)
    requires 0 < overlap < size && (i == 0 ==> p.text != "")
    ensures Openers(HardSplit(p, i, size, overlap)) == if i == 0 then 1 else 0
    decreases |p.text| - i
  {
    if i < |p.text| {
      var s := HardSeg(p, i, size, overlap);
      HardSplitOpeners(p, i + size - overlap, size, overlap);
      OpenersConcat([s], HardSplit(p, i + size - overlap, size, overlap));
      OpenersSnoc([], s);
      assert [] + [s] == [s];
    }
  }

  lemma LongSeamsSnoc(ps: seq<Piece>, p: Piece, size: nat)
    ensures LongSeams(ps + [p], size)
            == LongSeams(ps, size)
               + if ps != [] && (|ps[|ps| - 1].text| > size || |p.text| > size) then 1 else 0
  {
    assert (ps + [p])[..|ps|] == ps;
  }

  lemma StepOpeners(m: Merge, p: Piece, size: nat, overlap: nat)
    requires 0 < overlap < size && p.text != "" && (m.open.Some? ==> m.open.value.text != "")
    ensures Openers(Closed(Step(m, p, size, overlap)))
            == Openers(Closed(m)) + if |p.text| > size || m.open.None? then 1 else 0
    ensures var open := Step(m, p, size, overlap).open;
            (open.Some? <==> |p.text| <= size) && (open.Some? ==> open.value.text != "")
  {
    hide Openers, HardSplit;
    if |p.text| > size {
      HardSplitOpeners(p, 0, size, overlap);
      OpenersConcat(Closed(m), HardSplit(p, 0, size, overlap));
    } else {
      var s := Step(m, p, size, overlap);
      OpenersSnoc(s.done, s.open.value);
      if m.open.Some? {
        OpenersSnoc(m.done, m.open.value);
      }
    }
  }

  lemma {:induction false} MergeOpeners(ps: seq<Piece>, size: nat, overlap: nat)
    requires 0 < overlap < size && forall p :: p in ps ==> p.text != ""
    ensures Openers(Segs(ps, size, overlap)) == LongSeams(ps, size) + if ps == [] then 0 else 1
    ensures var open := MergeAll(ps, size, overlap).open;
            && (open.Some? <==> ps != [] && |ps[|ps| - 1].text| <= size)
            && (open.Some? ==> open.value.text != "")
    decreases |ps|
  {
    hide Openers, LongSeams, Step;
    if ps == [] {
      NothingMerged(size, overlap);
      OpenersNone();
    } else {
      var init, p := ps[..|ps| - 1], ps[|ps| - 1];
      assert ps == init + [p];
      MergeOpeners(init, size, overlap);
      StepOpeners(MergeAll(init, size, overlap), p, size, overlap);
      LongSeamsSnoc(init, p, size);
    }
  }

  lemma NothingMerged(size: nat, overlap: int)
    requires overlap < size
    ensures Segs([], size, overlap) == [] && LongSeams([], size) == 0
  {
  }

  lemma {:induction false} GapsAreOpeners(src: string, segs: seq<Seg>, size: nat, overlap: nat)
    requires Chain(src, segs, size, overlap)
    ensures Openers(segs) == Gaps(segs) + if segs == [] then 0 else 1
    decreases |segs|
  {
    hide Fits, Chain;
    if segs != [] {
      var init, s := segs[..|segs| - 1], segs[|segs| - 1];
      assert segs == init + [s];
      ChainInit(src, init, s, size, overlap);
      GapsAreOpeners(src, init, size, overlap);
    }
  }

  /** Adjacent chunks do not always overlap: the number of neighbouring chunks that do not is
      exactly the number of neighbouring pieces of which one is longer than the limit. */
  lemma GapsAtLongPieces(text: string, seps: seq<string>, size: nat, overlap: nat)
    requires ProperSeps(seps) && 0 < overlap < size
    ensures Gaps(Segs(Pieces(text, seps, 0), size, overlap)) == LongSeams(Pieces(text, seps, 0), size)
  {
    hide Pieces, Weave, MergeAll, Novel, Joined, Segs, Chain, Gaps, LongSeams, Openers;
    var ps := Pieces(text, seps, 0);
    ChunksConserve(text, seps, size, overlap);
    PiecesNotEmpty(text, seps);
    MergeOpeners(ps, size, overlap);
    GapsAreOpeners(text, Segs(ps, size, overlap), size, overlap);
    NothingMerged(size, overlap);
    OpenersNone();
  }

  lemma OpenersNone()
    ensures Openers([]) == 0
  {
  }

  ghost predicate OverlapsLast(segs: seq<Seg>, i: nat)
    requires 0 < i < |segs|
  {
    segs[i].start < segs[i - 1].end
  }

  ghost predicate BothShort(ps: seq<Piece>, i: nat, size: nat)
    requires 0 < i < |ps|
  {
    |ps[i - 1].text| <= size && |ps[i].text| <= size
  }

  lemma {:induction false} NoGaps(segs: seq<Seg>)
    ensures Gaps(segs) == 0 <==> forall i :: 0 < i < |segs| ==> OverlapsLast(segs, i)
    decreases |segs|
  {
    if |segs| >= 2 {
      var init, n := segs[..|segs| - 1], |segs| - 1;
      NoGaps(init);
      assert forall i :: 0 < i < n ==> OverlapsLast(init, i) == OverlapsLast(segs, i);
      assert Gaps(segs) == Gaps(init) + if OverlapsLast(segs, n) then 0 else 1;
    }
  }

  lemma {:induction false} NoLongSeams(ps: seq<Piece>, size: nat)
    ensures LongSeams(ps, size) == 0 <==> forall i :: 0 < i < |ps| ==> BothShort(ps, i, size)
    decreases |ps|
  {
    if |ps| >= 2 {
      var init, n := ps[..|ps| - 1], |ps| - 1;
      NoLongSeams(init, size);
      assert forall i :: 0 < i < n ==> BothShort(init, i, size) == BothShort(ps, i, size);
      assert LongSeams(ps, size) == LongSeams(init, size) + if BothShort(ps, n, size) then 0 else 1;
    }
  }

  /** All neighbouring chunks overlap in the source if and only if no piece that is longer than the
      limit has a neighbour. */
  lemma NeighboursOverlapIff(text: string, seps: seq<string>, size: nat, overlap: nat)
    requires ProperSeps(seps) && 0 < overlap < size
    ensures var segs, ps := Segs(Pieces(text, seps, 0), size, overlap), Pieces(text, seps, 0);
            (forall i :: 0 < i < |segs| ==> OverlapsLast(segs, i))
            <==> (forall i :: 0 < i < |ps| ==> BothShort(ps, i, size))
  {
    hide Pieces, Segs, Gaps, LongSeams, OverlapsLast, BothShort;
    GapsAtLongPieces(text, seps, size, overlap);
    NoGaps(Segs(Pieces(text, seps, 0), size, overlap));
    NoLongSeams(Pieces(text, seps, 0), size);
  }

  lemma SpaceFound(t: string)
    ensures Find(t, " ", 0) >= 0 ==> Find(t, " ", 0) < |t| && t[Find(t, " ", 0)] == ' '
  {
    var i := Find(t, " ", 0);
    if i >= 0 {
      assert t[i..i + 1][0] == t[i];
    }
  }

  lemma OneSep(t: string)
    ensures FirstSep(t, [" "]) == if Find(t, " ", 0) >= 0 then Some(" ") else None
  {
    assert [" "][1..] == [];
  }

  lemma Uncut(t: string, base: int)
    requires t != "" && ' ' !in t
    ensures Pieces(t, [" "], base) == [Piece(t, base, base + |t|)]
  {
    hide Find;
    SpaceFound(t);
    OneSep(t);
  }

  lemma FirstSpace(t: string, a: string, b: string)
    requires t == a + " " + b && ' ' !in a && ' ' !in b
    ensures Find(t, " ", 0) == |a|
  {
    hide Find;
    assert forall k :: 0 <= k < |a| ==> t[k] == a[k] && t[k] != ' ';
    assert OccursAt(t, " ", |a|);
    SpaceFound(t);
  }

  lemma CutAtSpace(t: string)
    requires FirstSep(t, [" "]) == Some(" ")
    ensures var i := Find(t, " ", 0);
            Pieces(t, [" "], 0) == Pieces(t[..i], [" "], 0) + Pieces(t[i + 1..], [" "], i + 1)
  {
    hide Find, FirstSep;
  }

  /** Two words without a space, and a space between them. */
  lemma TwoWords(t: string, a: string, b: string)
    requires t == a + " " + b && a != "" && b != "" && ' ' !in a && ' ' !in b
    ensures Pieces(t, [" "], 0) == [Piece(a, 0, |a|), Piece(b, |a| + 1, |t|)]
  {
    hide Find, FirstSep, OccursAt, Pieces;
    FirstSpace(t, a, b);
    OneSep(t);
    CutAtSpace(t);
    assert t[..|a|] == a && t[|a| + 1..] == b;
    Uncut(a, 0);
    Uncut(b, |a| + 1);
  }

  lemma ExampleSegs(p: Piece, q: Piece)
    requires |p.text| == 4 && |q.text| == 1
    ensures Segs([p, q], 3, 1) == [HardSeg(p, 0, 3, 1), HardSeg(p, 2, 3, 1), Extend(None, q)]
  {
    hide HardSeg;
    assert [p, q][..1] == [p] && [p][..0] == [];
    var none: Merge := MergeAll([], 3, 1);
    assert HardSplit(p, 4, 3, 1) == [];
    assert HardSplit(p, 2, 3, 1) == [HardSeg(p, 2, 3, 1)];
    assert HardSplit(p, 0, 3, 1) == [HardSeg(p, 0, 3, 1), HardSeg(p, 2, 3, 1)];
    assert MergeAll([p], 3, 1) == Step(none, p, 3, 1);
    assert MergeAll([p, q], 3, 1) == Step(MergeAll([p], 3, 1), q, 3, 1);
  }

  /** An input whose chunks do not overlap: "aaaa" is longer than three characters. */
  lemma OverlapFails()
    ensures var segs := Segs(Pieces("aaaa b", [" "], 0), 3, 1);
            |segs| == 3 && segs[1].text == "aa" && segs[2].text == "b" && segs[1].end < segs[2].start
  {
    hide Pieces, Segs;
    var p, q := Piece("aaaa", 0, 4), Piece("b", 5, 6);
    TwoWords("aaaa b", "aaaa", "b");
    ExampleSegs(p, q);
  }

  // ---------- pieces are merged as long as they fit ----------

  lemma {:induction false} FitsInOne(ps: seq<Piece>, size: int, overlap: int)
    requires overlap < size && |Joined(ps)| <= size
    ensures var m := MergeAll(ps, size, overlap);
            if ps == [] then m == Merge([], None) else m.done == [] && m.open.Some? && m.open.value.text == Joined(ps)
    decreases |ps|
  {
    if ps != [] {
      FitsInOne(ps[..|ps| - 1], size, overlap);
    }
  }

  /** If all pieces together fit, there is exactly one chunk, and it is all of them; without a piece
      there is none. */
  lemma OneChunkIfItFits(text: string, seps: seq<string>, size: int, overlap: int)
    requires ProperSeps(seps) && overlap < size && |Joined(Pieces(text, seps, 0))| <= size
    ensures var segs, ps := Segs(Pieces(text, seps, 0), size, overlap), Pieces(text, seps, 0);
            if ps == [] then segs == [] else |segs| == 1 && segs[0].text == Joined(ps)
  {
    hide Pieces, Joined, MergeAll;
    FitsInOne(Pieces(text, seps, 0), size, overlap);
  }

  /** Chunk i opens with piece j because that did not fit into the chunk before it. */
  ghost predicate NoRoom(ps: seq<Piece>, segs: seq<Seg>, i: nat, j: nat, size: int)
    requires 0 < i < |segs| && 0 < j < |ps|
  {
    segs[i - 1].end == ps[j - 1].end && ps[j].text <= Fresh(segs[i]) && |segs[i - 1].text| + |ps[j].text| > size
  }

  /** A chunk is settled before an ordinary one only for lack of room. */
  ghost predicate Full(ps: seq<Piece>, segs: seq<Seg>, i: nat, size: int)
    requires 0 < i < |segs|
  {
    !segs[i - 1].long && !segs[i].long ==> exists j :: 0 < j < |ps| && NoRoom(ps, segs, i, j, size)
  }

  ghost predicate AllFull(ps: seq<Piece>, segs: seq<Seg>, size: int) {
    forall i :: 0 < i < |segs| ==> Full(ps, segs, i, size)
  }

  lemma FullStays(ps: seq<Piece>, segs: seq<Seg>, p: Piece, more: seq<Seg>, i: nat, size: int)
    requires 0 < i < |segs| && Full(ps, segs, i, size)
    ensures Full(ps + [p], segs + more, i, size)
  {
    hide Fresh;
    if !segs[i - 1].long && !segs[i].long {
      var j :| 0 < j < |ps| && NoRoom(ps, segs, i, j, size);
      assert NoRoom(ps + [p], segs + more, i, j, size);
    }
  }

  /** Replacing the last chunk by one that begins in the same way. */
  lemma FullExtends(ps: seq<Piece>, segs: seq<Seg>, o: Seg, p: Piece, e: Seg, size: int)
    requires AllFull(ps, segs + [o], size) && Fresh(o) <= Fresh(e) && o.long == e.long
    ensures AllFull(ps + [p], segs + [e], size)
  {
    hide Fresh;
    forall i | 0 < i < |segs + [e]| ensures Full(ps + [p], segs + [e], i, size) {
      assert Full(ps, segs + [o], i, size);
      if i < |segs| {
        if !segs[i - 1].long && !segs[i].long {
          var j :| 0 < j < |ps| && NoRoom(ps, segs + [o], i, j, size);
          assert NoRoom(ps + [p], segs + [e], i, j, size);
        }
      } else if !segs[i - 1].long && !e.long {
        var j :| 0 < j < |ps| && NoRoom(ps, segs + [o], i, j, size);
        assert NoRoom(ps + [p], segs + [e], i, j, size);
      }
    }
  }

  lemma FullAppends(ps: seq<Piece>, segs: seq<Seg>, p: Piece, more: seq<Seg>, size: int)
    requires AllFull(ps, segs, size)
    requires forall i :: 0 <= i < |more| ==> more[i].long
    ensures AllFull(ps + [p], segs + more, size)
  {
    hide Full;
    forall i | 0 < i < |segs + more| ensures Full(ps + [p], segs + more, i, size) {
      if i < |segs| {
        FullStays(ps, segs, p, more, i, size);
      } else {
        LongIsFull(ps + [p], segs + more, i, size);
      }
    }
  }

  lemma LongIsFull(ps: seq<Piece>, segs: seq<Seg>, i: nat, size: int)
    requires 0 < i < |segs| && (segs[i].long || segs[i - 1].long)
    ensures Full(ps, segs, i, size)
  {
  }

  lemma {:induction false} HardSplitLong(p: Piece, i: nat, size: int, overlap: int)
    requires overlap < size
    ensures forall k :: 0 <= k < |HardSplit(p, i, size, overlap)| ==> HardSplit(p, i, size, overlap)[k].long
    decreases |p.text| - i
  {
    if i < |p.text| {
      HardSplitLong(p, i + size - overlap, size, overlap);
    }
  }

  /** A new ordinary chunk: after a long one, at the start, or for lack of room. */
  lemma FullOpens(ps: seq<Piece>, segs: seq<Seg>, p: Piece, e: Seg, size: int)
    requires AllFull(ps, segs, size) && p.text <= Fresh(e) && !e.long
    requires segs != [] && !segs[|segs| - 1].long ==>
               ps != [] && segs[|segs| - 1].end == ps[|ps| - 1].end && |segs[|segs| - 1].text| + |p.text| > size
    ensures AllFull(ps + [p], segs + [e], size)
  {
    hide Fresh;
    forall i | 0 < i < |segs + [e]| ensures Full(ps + [p], segs + [e], i, size) {
      if i < |segs| {
        FullStays(ps, segs, p, [e], i, size);
      } else if !segs[i - 1].long {
        assert NoRoom(ps + [p], segs + [e], i, |ps|, size);
      }
    }
  }

  lemma StepKeepsFull(src: string, m: Merge, ps: seq<Piece>, p: Piece, size: nat, overlap: nat)
    requires overlap < size && Kept(src, m, ps, size, overlap) && PieceAt(src, ps + [p], |ps|)
    requires AllFull(ps, Closed(m), size)
    ensures AllFull(ps + [p], Closed(Step(m, p, size, overlap)), size)
  {
    hide AllFull, Chain, Novel, Joined, HardSplit, Tail, Fresh;
    if |p.text| > size {
      HardSplitLong(p, 0, size, overlap);
      FullAppends(ps, Closed(m), p, HardSplit(p, 0, size, overlap), size);
    } else if m.open.None? {
      FreshOpen(p);
      FullOpens(ps, m.done, p, Extend(None, p), size);
    } else {
      var o := m.open.value;
      ChainInit(src, m.done, o, size, overlap);
      if |o.text| + |p.text| > size {
        Flushed(src, o, p, size, overlap);
        FullOpens(ps, Closed(m), p, Extend(Tail(o, overlap), p), size);
      } else {
        Appended(src, o, p, size, overlap);
        FullExtends(ps, m.done, o, p, Extend(Some(o), p), size);
      }
    }
  }

  lemma FreshOpen(p: Piece)
    ensures Fresh(Extend(None, p)) == p.text
  {
  }

  lemma {:induction false} MergeIsFull(src: string, ps: seq<Piece>, size: nat, overlap: nat)
    requires overlap < size && InSource(src, ps)
    ensures AllFull(ps, Segs(ps, size, overlap), size)
    decreases |ps|
  {
    hide AllFull, Kept, Step;
    if ps == [] {
      NothingFull(size, overlap);
    } else {
      var init, p := ps[..|ps| - 1], ps[|ps| - 1];
      assert init + [p] == ps;
      forall i | 0 <= i < |init| ensures PieceAt(src, init, i) {
        assert PieceAt(src, ps, i);
      }
      MergeIsFull(src, init, size, overlap);
      MergeKeeps(src, init, size, overlap);
      assert PieceAt(src, ps, |init|);
      StepKeepsFull(src, MergeAll(init, size, overlap), init, p, size, overlap);
    }
  }

  lemma NothingFull(size: nat, overlap: nat)
    requires overlap < size
    ensures AllFull([], Segs([], size, overlap), size)
  {
  }

  /** Pieces are merged greedily: wherever an ordinary chunk follows another, the first piece that is
      new in it did not fit into the one before. */
  lemma ChunksAreFull(text: string, seps: seq<string>, size: nat, overlap: nat)
    requires ProperSeps(seps) && overlap < size
    ensures AllFull(Pieces(text, seps, 0), Segs(Pieces(text, seps, 0), size, overlap), size)
  {
    hide Pieces, Weave, Segs, AllFull;
    SplitDecomposes(text, seps, 0, Pieces(text, seps, 0));
    assert text[0..] == text;
    WeaveInSource(text, text, seps, 0, Pieces(text, seps, 0));
    MergeIsFull(text, Pieces(text, seps, 0), size, overlap);
  }

  // ---------- the segments of a long piece ----------

  lemma StepBack(k: nat, step: nat)
    requires k > 0
    ensures (k - 1) * step + step == k * step
  {
  }

  /** The characters of the piece from `at` on, `size` of them or all that are left. */
  ghost predicate IsSegment(p: Piece, s: Seg, at: nat, size: nat) {
    && at < |p.text| && s.start == p.start + at
    && s.text == p.text[at..if at + size <= |p.text| then at + size else |p.text|]
  }

  /** Segment k of a long piece starts k steps on. */
  lemma {:induction false} HardSplitAt(p: Piece, i: nat, size: nat, overlap: nat, k: nat, at: nat)
    requires overlap < size && k < |HardSplit(p, i, size, overlap)| && at == i + k * (size - overlap)
    ensures IsSegment(p, HardSplit(p, i, size, overlap)[k], at, size)
    decreases |p.text| - i
  {
    if k > 0 {
      StepBack(k, size - overlap);
      HardSplitAt(p, i + size - overlap, size, overlap, k - 1, at);
    }
  }

  /** There are as many segments as steps begin in the piece. */
  lemma {:induction false} HardSplitCount(p: Piece, i: nat, size: nat, overlap: nat)
    requires overlap < size && i < |p.text|
    ensures var n, step := |HardSplit(p, i, size, overlap)|, size - overlap;
            n > 0 && i + (n - 1) * step < |p.text| <= i + n * step
    decreases |p.text| - i
  {
    var next := i + size - overlap;
    if next < |p.text| {
      HardSplitCount(p, next, size, overlap);
      var n := |HardSplit(p, next, size, overlap)|;
      StepBack(n, size - overlap);
      StepBack(n + 1, size - overlap);
    } else {
      assert |HardSplit(p, next, size, overlap)| == 0;
    }
  }

  // ---------- a negative overlap ----------

  lemma {:induction false} NovelConcat(a: seq<Seg>, b: seq<Seg>)
    ensures |Novel(a + b)| == |Novel(a)| + |Novel(b)|
    decreases |b|
  {
    if b == [] {
      assert a + b == a;
    } else {
      var init := b[..|b| - 1];
      NovelConcat(a, init);
      assert (a + b)[..|a + b| - 1] == a + init;
    }
  }

  lemma NovelOne(s: Seg)
    ensures Novel([s]) == Fresh(s)
  {
    NovelSnoc([], s);
    assert [] + [s] == [s];
  }

  lemma {:induction false} HardSplitSkips(p: Piece, i: nat, size: nat, overlap: int)
    requires overlap < 0 && i < |p.text|
    ensures |Novel(HardSplit(p, i, size, overlap))| <= |p.text| - i
    ensures |p.text| - i > size ==> |Novel(HardSplit(p, i, size, overlap))| < |p.text| - i
    decreases |p.text| - i
  {
    hide Novel;
    var s, next := HardSeg(p, i, size, overlap), i + size - overlap;
    NovelOne(s);
    NovelConcat([s], HardSplit(p, next, size, overlap));
    if next < |p.text| {
      HardSplitSkips(p, next, size, overlap);
    } else {
      assert [s] + [] == [s];
    }
  }

  lemma StepLoses(m: Merge, p: Piece, size: nat, overlap: int)
    requires overlap < 0 && p.text != "" && (m.open.Some? ==> m.open.value.carry == 0)
    ensures var m' := Step(m, p, size, overlap);
            && (m'.open.Some? ==> m'.open.value.carry == 0)
            && (|p.text| <= size ==> Novel(Closed(m')) == Novel(Closed(m)) + p.text)
            && (|p.text| > size ==> |Novel(Closed(m'))| < |Novel(Closed(m))| + |p.text|)
  {
    hide Novel, HardSplit;
    if |p.text| > size {
      HardSplitSkips(p, 0, size, overlap);
      NovelConcat(Closed(m), HardSplit(p, 0, size, overlap));
    } else {
      var m' := Step(m, p, size, overlap);
      NovelSnoc(m'.done, m'.open.value);
      if m.open.Some? {
        NovelSnoc(m.done, m.open.value);
      }
    }
  }

  lemma {:induction false} MergeLoses(ps: seq<Piece>, size: nat, overlap: int)
    requires overlap < 0 && forall p :: p in ps ==> p.text != ""
    ensures var m := MergeAll(ps, size, overlap);
            && (m.open.Some? ==> m.open.value.carry == 0)
            && (if forall p :: p in ps ==> |p.text| <= size then Novel(Closed(m)) == Joined(ps)
                else |Novel(Closed(m))| < |Joined(ps)|)
    decreases |ps|
  {
    hide Step, Novel;
    if ps == [] {
      NovelNone();
    } else {
      var init, p := ps[..|ps| - 1], ps[|ps| - 1];
      assert ps == init + [p];
      MergeLoses(init, size, overlap);
      StepLoses(MergeAll(init, size, overlap), p, size, overlap);
    }
  }

  lemma NovelNone()
    ensures Novel([]) == ""
  {
  }

  /** With a negative overlap the chunks hold exactly the characters of the pieces if and only if no
      piece is longer than the limit: the hard split then skips characters between its segments,
      and fewer are left. */
  lemma NegativeOverlapLoses(text: string, seps: seq<string>, size: nat, overlap: int)
    requires ProperSeps(seps) && overlap < 0
    ensures var novel, all := Novel(Segs(Pieces(text, seps, 0), size, overlap)), Joined(Pieces(text, seps, 0));
            && (novel == all <==> forall p :: p in Pieces(text, seps, 0) ==> |p.text| <= size)
            && (novel != all ==> |novel| < |all|)
  {
    hide Pieces, MergeAll, Weave, Novel, Joined;
    PiecesNotEmpty(text, seps);
    MergeLoses(Pieces(text, seps, 0), size, overlap);
  }

  /** An input that loses characters: with size 1 and overlap -1 every other one of "abcd". */
  lemma NegativeOverlapExample()
    ensures var segs := Segs(Pieces("abcd", [" "], 0), 1, -1);
            |segs| == 2 && segs[0].text == "a" && segs[1].text == "c"
  {
    hide Pieces;
    var p := Piece("abcd", 0, 4);
    Uncut("abcd", 0);
    assert [p][..0] == [];
    assert HardSplit(p, 4, 1, -1) == [];
    assert HardSplit(p, 2, 1, -1) == [HardSeg(p, 2, 1, -1)];
    assert HardSplit(p, 0, 1, -1) == [HardSeg(p, 0, 1, -1), HardSeg(p, 2, 1, -1)];
  }

  lemma PiecesNotEmpty(text: string, seps: seq<string>)
    requires ProperSeps(seps)
    ensures forall p :: p in Pieces(text, seps, 0) ==> p.text != ""
  {
    hide Pieces, Weave;
    var ps := Pieces(text, seps, 0);
    SplitDecomposes(text, seps, 0, ps);
    assert text[0..] == text;
    WeaveInSource(text, text, seps, 0, ps);
    forall p | p in ps ensures p.text != "" {
      var i :| 0 <= i < |ps| && ps[i] == p;
      assert PieceAt(text, ps, i);
    }
  }

  /** The text without the characters that occur in some separator. */
  ghost function Plain(s: string, seps: seq<string>): string {
    if s == "" then ""
    else (if exists sep :: sep in seps && s[0] in sep then "" else [s[0]]) + Plain(s[1..], seps)
  }

  lemma {:induction false} PlainConcat(a: string, b: string, seps: seq<string>)
    ensures Plain(a + b, seps) == Plain(a, seps) + Plain(b, seps)
    decreases |a|
  {
    if a == "" {
      assert a + b == b;
    } else {
      assert (a + b)[1..] == a[1..] + b;
      PlainConcat(a[1..], b, seps);
    }
  }

  lemma {:induction false} PlainSep(sub: string, sep: string, seps: seq<string>)
    requires sep in seps && forall c :: c in sub ==> c in sep
    ensures Plain(sub, seps) == ""
    decreases |sub|
  {
    if sub != "" {
      assert sub[0] in sep;
      PlainSep(sub[1..], sep, seps);
    }
  }

  lemma {:induction false} PlainRun(s: string, seps: seq<string>)
    requires SepRun(s, seps)
    ensures Plain(s, seps) == ""
    decreases |s|
  {
    if s != "" {
      var k :| RunFrom(s, k, seps);
      PlainSep(s[..k], s[..k], seps);
      PlainRun(s[k..], seps);
      PlainConcat(s[..k], s[k..], seps);
      assert s == s[..k] + s[k..];
    }
  }

  lemma {:induction false} JoinedCons(p: Piece, ps: seq<Piece>)
    ensures Joined([p] + ps) == p.text + Joined(ps)
    decreases |ps|
  {
    if ps == [] {
      assert [p] + ps == [p];
      JoinedOne(p);
    } else {
      hide Joined;
      var init, last := ps[..|ps| - 1], ps[|ps| - 1];
      JoinedCons(p, init);
      JoinedSnoc(init, last);
      JoinedSnoc([p] + init, last);
      assert ps == init + [last] && [p] + ps == ([p] + init) + [last];
    }
  }

  lemma SplitAt(t: string, i: nat, j: nat)
    requires i <= j <= |t|
    ensures t == t[..i] + (t[i..j] + t[j..])
  {
  }

  lemma {:induction false} WeavePlain(t: string, seps: seq<string>, base: int, ps: seq<Piece>)
    requires Weave(t, seps, base, ps)
    ensures Plain(t, seps) == Plain(Joined(ps), seps)
    decreases |ps|
  {
    hide Plain, Joined, Opens, SepRun;
    if ps == [] {
      PlainRun(t, seps);
      JoinedPlainNone(seps);
    } else {
      var p := ps[0];
      OpensParts(t, seps, base, p);
      var i, j := p.start - base, p.end - base;
      WeavePlain(t[j..], seps, p.end, ps[1..]);
      PlainRun(t[..i], seps);
      SplitAt(t, i, j);
      PlainConcat(t[..i], t[i..j] + t[j..], seps);
      PlainConcat(t[i..j], t[j..], seps);
      JoinedCons(p, ps[1..]);
      assert [p] + ps[1..] == ps;
      PlainConcat(p.text, Joined(ps[1..]), seps);
    }
  }

  lemma OpensParts(t: string, seps: seq<string>, base: int, p: Piece)
    requires Opens(t, seps, base, p)
    ensures base <= p.start < p.end <= base + |t|
    ensures SepRun(t[..p.start - base], seps) && p.text == t[p.start - base..p.end - base]
  {
  }

  lemma JoinedPlainNone(seps: seq<string>)
    ensures Plain(Joined([]), seps) == ""
  {
  }

  /** Every character that occurs in no separator is in the chunks exactly once, in order,
      once the repeated heads are dropped. */
  lemma NothingLost(text: string, seps: seq<string>, size: nat, overlap: nat)
    requires ProperSeps(seps) && overlap < size
    ensures Plain(Novel(Segs(Pieces(text, seps, 0), size, overlap)), seps) == Plain(text, seps)
  {
    hide Pieces, Weave, Segs, Plain, Novel, Joined;
    ChunksConserve(text, seps, size, overlap);
    WeavePlain(text, seps, 0, Pieces(text, seps, 0));
  }
}
