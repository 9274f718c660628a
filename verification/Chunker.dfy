/** core/ingest/chunker.py: the recursive separator split with source offsets and
    the greedy merge with tail carry-over and hard split of long pieces. */
module Chunker {
  import opened Wrappers

  datatype Chunk = Chunk(text: string, index: nat, start: int, end: int)

  datatype Piece = Piece(text: string, start: int, end: int)

  // ---------- str operations the program relies on ----------

  predicate OccursAt(text: string, sep: string, i: int) {
    0 <= i && i + |sep| <= |text| && text[i..i + |sep|] == sep
  }

  /** First occurrence of `sep` at or after `from`, or -1. */
  function Find(text: string, sep: string, from: nat): (r: int)
    requires from <= |text|
    ensures r == -1 || (from <= r && OccursAt(text, sep, r))
    ensures forall i :: from <= i && (r == -1 || i < r) ==> !OccursAt(text, sep, i)
    decreases |text| - from
  {
    if OccursAt(text, sep, from) then from
    else if from == |text| then -1
    else Find(text, sep, from + 1)
  }

  predicate Occurs(text: string, sep: string) {
    Find(text, sep, 0) >= 0
  }

  /** text.split(sep) */
  function StrSplit(text: string, sep: string): (parts: seq<string>)
    requires sep != ""
    ensures |parts| > 0
    decreases |text|
  {
    var i := Find(text, sep, 0);
    if i < 0 then [text] else [text[..i]] + StrSplit(text[i + |sep|..], sep)
  }

  /** The first separator, in list order, that occurs in the text. */
  function FirstSep(text: string, seps: seq<string>): (r: Option<string>)
    ensures r.None? ==> forall s :: s in seps ==> !Occurs(text, s)
    ensures r.Some? ==> r.value in seps && Occurs(text, r.value)
  {
    if seps == [] then None
    else if Occurs(text, seps[0]) then Some(seps[0])
    else FirstSep(text, seps[1..])
  }

  /** No separator listed before the chosen one occurs. */
  lemma {:induction false} FirstSepIsFirst(text: string, seps: seq<string>) returns (k: nat)
    requires FirstSep(text, seps).Some?
    ensures k < |seps| && FirstSep(text, seps) == Some(seps[k]) && Occurs(text, seps[k])
    ensures forall j :: 0 <= j < k ==> !Occurs(text, seps[j])
    decreases |seps|
  {
    hide Find;
    if Occurs(text, seps[0]) {
      k := 0;
    } else {
      var i := FirstSepIsFirst(text, seps[1..]);
      k := i + 1;
    }
  }

  predicate ProperSeps(seps: seq<string>) {
    "" !in seps
  }

  /** sep.join(parts) */
  ghost function JoinWith(parts: seq<string>, sep: string): string {
    if |parts| == 0 then "" else if |parts| == 1 then parts[0] else parts[0] + sep + JoinWith(parts[1..], sep)
  }

  /** text.split(sep): the parts, none of which contains the separator, join to the text. */
  lemma {:induction false} SplitJoins(text: string, sep: string)
    requires sep != ""
    ensures JoinWith(StrSplit(text, sep), sep) == text
    ensures forall p :: p in StrSplit(text, sep) ==> !Occurs(p, sep)
    decreases |text|
  {
    hide Find, JoinWith;
    var i := Find(text, sep, 0);
    if i >= 0 {
      var rest := text[i + |sep|..];
      SplitJoins(rest, sep);
      HeadIsFree(text, sep);
      JoinCons(text[..i], StrSplit(rest, sep), sep);
      assert text == text[..i] + sep + rest;
    } else {
      JoinOne(text, sep);
    }
  }

  lemma JoinCons(head: string, parts: seq<string>, sep: string)
    requires parts != []
    ensures JoinWith([head] + parts, sep) == head + sep + JoinWith(parts, sep)
  {
    assert ([head] + parts)[1..] == parts;
  }

  lemma JoinOne(text: string, sep: string)
    ensures JoinWith([text], sep) == text
  {
  }

  lemma HeadIsFree(text: string, sep: string)
    requires sep != "" && Occurs(text, sep)
    ensures !Occurs(text[..Find(text, sep, 0)], sep)
  {
    var head := text[..Find(text, sep, 0)];
    var k := Find(head, sep, 0);
    if k >= 0 {
      assert text[k..k + |sep|] == head[k..k + |sep|];
      assert OccursAt(text, sep, k);
    }
  }

  // ---------- reference split ----------

  /** Reference: cut once, at the leftmost occurrence of the first separator that
      occurs, and split both sides again. */
  function Pieces(text: string, seps: seq<string>, base: int): seq<Piece>
    requires ProperSeps(seps)
    decreases |text|
  {
    if text == "" then []
    else match FirstSep(text, seps)
      case None => [Piece(text, base, base + |text|)]
      case Some(sep) =>
        var i := Find(text, sep, 0);
        Pieces(text[..i], seps, base) + Pieces(text[i + |sep|..], seps, base + i + |sep|)
  }

  lemma OccursInSuffix(text: string, sep: string, k: nat)
    requires k <= |text|
    requires Occurs(text[k..], sep)
    ensures Occurs(text, sep)
  {
    var i := Find(text[k..], sep, 0);
    assert text[k + i..k + i + |sep|] == text[k..][i..i + |sep|];
    assert OccursAt(text, sep, k + i);
  }

  /** A suffix in which the chosen separator still occurs makes the same choice. */
  lemma {:induction false} FirstSepOfSuffix(text: string, seps: seq<string>, k: nat)
    requires k <= |text|
    requires FirstSep(text, seps).Some? && Occurs(text[k..], FirstSep(text, seps).value)
    ensures FirstSep(text[k..], seps) == FirstSep(text, seps)
  {
    if !Occurs(text, seps[0]) {
      if Occurs(text[k..], seps[0]) {
        OccursInSuffix(text, seps[0], k);
      }
      FirstSepOfSuffix(text, seps[1..], k);
    }
  }

  /** The part before the first occurrence of the chosen separator, and what follows it. */
  lemma NextPart(rest: string, sep: string, seps: seq<string>, offset: int)
    requires ProperSeps(seps) && Occurs(rest, sep) && FirstSep(rest, seps) == Some(sep)
    ensures var i := Find(rest, sep, 0);
            var rest' := rest[i + |sep|..];
            && StrSplit(rest, sep) == [rest[..i]] + StrSplit(rest', sep)
            && Pieces(rest, seps, offset)
               == Pieces(rest[..i], seps, offset) + Pieces(rest', seps, offset + i + |sep|)
            && (Occurs(rest', sep) ==> FirstSep(rest', seps) == Some(sep))
  {
    hide Find, FirstSep;
    var i := Find(rest, sep, 0);
    if Occurs(rest[i + |sep|..], sep) {
      FirstSepOfSuffix(rest, seps, i + |sep|);
    }
  }

  /** The pieces of a list of parts that follow each other `gap` apart. */
  ghost function PartPieces(parts: seq<string>, gap: nat, seps: seq<string>, offset: int): seq<Piece>
    requires ProperSeps(seps)
  {
    if parts == [] then []
    else Pieces(parts[0], seps, offset) + PartPieces(parts[1..], gap, seps, offset + |parts[0]| + gap)
  }

  /** Splitting part by part gives the reference split, and each part is shorter than the text. */
  lemma {:induction false} PartsOfText(text: string, sep: string, seps: seq<string>, offset: int)
    requires ProperSeps(seps) && sep in seps
    requires Occurs(text, sep) ==> FirstSep(text, seps) == Some(sep)
    ensures PartPieces(StrSplit(text, sep), |sep|, seps, offset) == Pieces(text, seps, offset)
    ensures forall p :: p in StrSplit(text, sep) ==> |p| <= |text|
    ensures Occurs(text, sep) ==> forall p :: p in StrSplit(text, sep) ==> |p| < |text|
    decreases |text|
  {
    hide Find, FirstSep, Pieces;
    if Occurs(text, sep) {
      NextPart(text, sep, seps, offset);
      var i := Find(text, sep, 0);
      PartsOfText(text[i + |sep|..], sep, seps, offset + i + |sep|);
      assert StrSplit(text, sep)[1..] == StrSplit(text[i + |sep|..], sep);
    } else {
      assert StrSplit(text, sep)[1..] == [];
    }
  }

  lemma {:induction false} PartPiecesSnoc(parts: seq<string>, p: string, gap: nat, seps: seq<string>, offset: int)
    requires ProperSeps(seps)
    ensures PartPieces(parts + [p], gap, seps, offset)
            == PartPieces(parts, gap, seps, offset) + Pieces(p, seps, offset + Width(parts, gap))
    ensures Width(parts + [p], gap) == Width(parts, gap) + |p| + gap
  {
    hide Pieces;
    if parts == [] {
      assert [p][1..] == [];
    } else {
      assert (parts + [p])[1..] == parts[1..] + [p];
      PartPiecesSnoc(parts[1..], p, gap, seps, offset + |parts[0]| + gap);
    }
  }

  ghost function Width(parts: seq<string>, gap: nat): nat {
    if parts == [] then 0 else |parts[0]| + gap + Width(parts[1..], gap)
  }

  lemma PartPiecesTake(parts: seq<string>, k: nat, gap: nat, seps: seq<string>, offset: int)
    requires ProperSeps(seps) && k < |parts|
    ensures PartPieces(parts[..k + 1], gap, seps, offset)
            == PartPieces(parts[..k], gap, seps, offset) + Pieces(parts[k], seps, offset + Width(parts[..k], gap))
    ensures Width(parts[..k + 1], gap) == Width(parts[..k], gap) + |parts[k]| + gap
  {
    hide Pieces, PartPieces, Width, ProperSeps;
    PartPiecesSnoc(parts[..k], parts[k], gap, seps, offset);
    assert parts[..k + 1] == parts[..k] + [parts[k]];
  }

  lemma PartPiecesEnds(parts: seq<string>, gap: nat, seps: seq<string>, offset: int)
    requires ProperSeps(seps)
    ensures PartPieces(parts[..0], gap, seps, offset) == [] && Width(parts[..0], gap) == 0
    ensures PartPieces(parts[..|parts|], gap, seps, offset) == PartPieces(parts, gap, seps, offset)
  {
    assert parts[..|parts|] == parts;
  }

  lemma PiecesUncut(text: string, seps: seq<string>, base: int)
    requires ProperSeps(seps)
    ensures text == "" ==> Pieces(text, seps, base) == []
    ensures text != "" && FirstSep(text, seps).None? ==> Pieces(text, seps, base) == [Piece(text, base, base + |text|)]
  {
  }

  // ---------- an empty separator ----------

  /** The separators listed before the empty one. */
  function BeforeEmpty(seps: seq<string>): (front: seq<string>)
    ensures ProperSeps(front)
    ensures ProperSeps(seps) ==> front == seps
  {
    if seps == [] || seps[0] == "" then [] else [seps[0]] + BeforeEmpty(seps[1..])
  }

  /** The empty separator occurs in every text: it is chosen where no separator before it occurs. */
  lemma {:induction false} FirstSepWithEmpty(text: string, seps: seq<string>)
    ensures var front := FirstSep(text, BeforeEmpty(seps));
            FirstSep(text, seps) == if front.Some? then front else if "" in seps then Some("") else None
    decreases |seps|
  {
    if seps != [] {
      if seps[0] == "" {
        assert OccursAt(text, "", 0);
      } else {
        FirstSepWithEmpty(text, seps[1..]);
        assert BeforeEmpty(seps)[1..] == BeforeEmpty(seps[1..]);
      }
    }
  }

  /** text.split("") raises: with an empty separator in the list a split fails exactly if the
      separators before it leave a piece. */
  ghost function SplitResult(text: string, seps: seq<string>, base: int): Result<seq<Piece>, string> {
    var ps := Pieces(text, BeforeEmpty(seps), base);
    if "" in seps && ps != [] then Failure(EMPTY_SEPARATOR) else Success(ps)
  }

  const EMPTY_SEPARATOR := "empty separator"

  lemma {:induction false} PartPiecesLeft(parts: seq<string>, k: nat, gap: nat, seps: seq<string>, offset: int)
    requires ProperSeps(seps) && k <= |parts| && PartPieces(parts[..k], gap, seps, offset) != []
    ensures PartPieces(parts, gap, seps, offset) != []
    decreases |parts| - k
  {
    hide PartPieces, Pieces, Width;
    if k == |parts| {
      assert parts[..k] == parts;
    } else {
      PartPiecesTake(parts, k, gap, seps, offset);
      PartPiecesLeft(parts, k + 1, gap, seps, offset);
    }
  }

  /** _split: the loop over text.split(sep) computes the reference split, or fails with it. */
  method Split(text: string, seps: seq<string>, base: int) returns (r: Result<seq<Piece>, string>)
    ensures r == SplitResult(text, seps, base)
    decreases |text|
  {
    hide Find, FirstSep, OccursAt, Pieces, StrSplit, PartPieces, Width, BeforeEmpty, ProperSeps;
    ghost var front := BeforeEmpty(seps);
    PiecesUncut(text, front, base);
    if text == "" {
      return Success([]);
    }
    FirstSepWithEmpty(text, seps);
    var first := FirstSep(text, seps);
    if first.None? {
      return Success([Piece(text, base, base + |text|)]);
    }
    var sep := first.value;
    if sep == "" {
      EmptyChosen(text, seps);
      return Failure(EMPTY_SEPARATOR);
    }
    ChosenBefore(text, seps);
    var parts := StrSplit(text, sep);
    PartsOfText(text, sep, front, base);
    var pieces: seq<Piece> := [];
    var offset := base;
    PartPiecesEnds(parts, |sep|, front, base);
    for k := 0 to |parts|
      invariant pieces == PartPieces(parts[..k], |sep|, front, base) && ("" in seps ==> pieces == [])
      invariant offset == base + Width(parts[..k], |sep|)
    {
      var part := parts[k];
      var sub := Split(part, seps, offset);
      PartPiecesTake(parts, k, |sep|, front, base);
      if sub.Failure? {
        PartPiecesLeft(parts, k + 1, |sep|, front, base);
        return sub;
      }
      pieces := pieces + sub.value;
      offset := offset + |part| + |sep|;
    }
    return Success(pieces);
  }

  lemma EmptyChosen(text: string, seps: seq<string>)
    requires FirstSep(text, seps) == Some("")
    ensures FirstSep(text, BeforeEmpty(seps)).None? && "" in seps
  {
    hide Find;
    FirstSepWithEmpty(text, seps);
  }

  lemma ChosenBefore(text: string, seps: seq<string>)
    requires FirstSep(text, seps).Some? && FirstSep(text, seps).value != ""
    ensures FirstSep(text, BeforeEmpty(seps)) == FirstSep(text, seps)
    ensures FirstSep(text, seps).value in BeforeEmpty(seps) && Occurs(text, FirstSep(text, seps).value)
  {
    hide Find;
    FirstSepWithEmpty(text, seps);
  }

  // ---------- the split is an exact decomposition ----------

  /** A (possibly empty) concatenation of separators. */
  ghost predicate SepRun(s: string, seps: seq<string>)
    decreases |s|, 1
  {
    s == "" || exists k :: RunFrom(s, k, seps)
  }

  ghost predicate RunFrom(s: string, k: int, seps: seq<string>)
    decreases |s|, 0
  {
    0 < k <= |s| && s[..k] in seps && SepRun(s[k..], seps)
  }

  ghost predicate SepFree(s: string, seps: seq<string>) {
    forall sep, i :: sep in seps ==> !OccursAt(s, sep, i)
  }

  /** `text`, read from offset `base`, is: a run of separators, the first piece, a run of
      separators, the second piece, and so on, ending with a run of separators. Each piece
      is the source slice at its offsets, is not empty and contains no separator. */
  ghost predicate Weave(text: string, seps: seq<string>, base: int, pieces: seq<Piece>)
    decreases |pieces|
  {
    if pieces == [] then SepRun(text, seps)
    else Opens(text, seps, base, pieces[0])
         && Weave(text[pieces[0].end - base..], seps, pieces[0].end, pieces[1..])
  }

  /** `text`, read from offset `base`, opens with a run of separators and then piece `p`. */
  ghost predicate Opens(text: string, seps: seq<string>, base: int, p: Piece) {
    && base <= p.start < p.end <= base + |text|
    && SepRun(text[..p.start - base], seps)
    && p.text == text[p.start - base..p.end - base]
    && SepFree(p.text, seps)
  }

  lemma {:induction false} SepRunConcat(a: string, b: string, seps: seq<string>)
    requires SepRun(a, seps) && SepRun(b, seps)
    ensures SepRun(a + b, seps)
    decreases |a|
  {
    if a == "" {
      assert a + b == b;
    } else {
      var k :| RunFrom(a, k, seps);
      SepRunConcat(a[k..], b, seps);
      assert (a + b)[..k] == a[..k] && (a + b)[k..] == a[k..] + b;
      assert RunFrom(a + b, k, seps);
    }
  }

  lemma SlicesPast<T>(g: seq<T>, b: seq<T>, n: nat, m: nat)
    requires n <= m <= |b|
    ensures (g + b)[..|g| + n] == g + b[..n] && (g + b)[|g| + n..|g| + m] == b[n..m] && (g + b)[|g| + m..] == b[m..]
  {
  }

  lemma OpensAfterGap(g: string, b: string, seps: seq<string>, base: int, q: Piece)
    requires SepRun(g, seps) && Opens(b, seps, base + |g|, q)
    ensures Opens(g + b, seps, base, q)
  {
    var n, m := q.start - (base + |g|), q.end - (base + |g|);
    hide SepRun, SepFree;
    SepRunConcat(g, b[..n], seps);
    SlicesPast(g, b, n, m);
    assert q.start - base == |g| + n && q.end - base == |g| + m;
  }

  lemma OpensBefore(a: string, b: string, seps: seq<string>, base: int, p: Piece)
    requires Opens(a, seps, base, p)
    ensures Opens(a + b, seps, base, p)
  {
    assert (a + b)[..p.start - base] == a[..p.start - base];
    assert (a + b)[p.start - base..p.end - base] == a[p.start - base..p.end - base];
  }

  /** A separator run in front of a weave widens its first gap. */
  lemma WeaveGap(g: string, b: string, seps: seq<string>, base: int, qs: seq<Piece>)
    requires SepRun(g, seps) && Weave(b, seps, base + |g|, qs)
    ensures Weave(g + b, seps, base, qs)
  {
    if qs == [] {
      SepRunConcat(g, b, seps);
    } else {
      var q := qs[0];
      OpensAfterGap(g, b, seps, base, q);
      var m := q.end - (base + |g|);
      assert 0 <= m <= |b| && q.end - base == |g| + m;
      hide SepRun, Opens;
      SlicesPast(g, b, m, m);
    }
  }

  lemma DropConcat<T>(a: seq<T>, b: seq<T>, e: nat)
    requires e <= |a|
    ensures (a + b)[e..] == a[e..] + b
  {
  }

  lemma ConsConcat<T>(ps: seq<T>, qs: seq<T>)
    requires ps != []
    ensures ps + qs == [ps[0]] + (ps[1..] + qs)
  {
  }

  lemma WeaveCons(text: string, seps: seq<string>, base: int, p: Piece, tail: string, rest: seq<Piece>,
                  all: seq<Piece>)
    requires Opens(text, seps, base, p) && tail == text[p.end - base..] && Weave(tail, seps, p.end, rest)
    requires all == [p] + rest
    ensures Weave(text, seps, base, all)
  {
    assert all[0] == p && all[1..] == rest;
    hide Opens, SepRun;
  }

  lemma {:induction false} WeaveConcat(a: string, b: string, seps: seq<string>, base: int,
                                       ps: seq<Piece>, qs: seq<Piece>)
    requires Weave(a, seps, base, ps) && Weave(b, seps, base + |a|, qs)
    ensures Weave(a + b, seps, base, ps + qs)
    decreases |ps|
  {
    if ps == [] {
      assert ps + qs == qs;
      WeaveGap(a, b, seps, base, qs);
    } else {
      var p := ps[0];
      var e := p.end - base;
      WeaveConcat(a[e..], b, seps, p.end, ps[1..], qs);
      DropConcat(a, b, e);
      OpensBefore(a, b, seps, base, p);
      ConsConcat(ps, qs);
      WeaveCons(a + b, seps, base, p, a[e..] + b, ps[1..] + qs, ps + qs);
    }
  }

  lemma WholePiece(text: string, seps: seq<string>, base: int)
    requires text != "" && FirstSep(text, seps).None?
    ensures Weave(text, seps, base, [Piece(text, base, base + |text|)])
  {
  }

  lemma SepIsRun(sep: string, seps: seq<string>)
    requires sep in seps
    ensures SepRun(sep, seps)
  {
    assert sep[..|sep|] == sep && sep[|sep|..] == "";
    if sep != "" {
      assert RunFrom(sep, |sep|, seps);
    }
  }

  /** Cutting at a separator and decomposing both sides decomposes the whole. */
  lemma WeaveCut(text: string, i: nat, sep: string, seps: seq<string>, base: int, ps: seq<Piece>, qs: seq<Piece>,
                 all: seq<Piece>)
    requires sep in seps && OccursAt(text, sep, i) && all == ps + qs
    requires Weave(text[..i], seps, base, ps) && Weave(text[i + |sep|..], seps, base + i + |sep|, qs)
    ensures Weave(text, seps, base, all)
  {
    hide SepRun, Weave;
    var a, b := text[..i], text[i + |sep|..];
    SepIsRun(sep, seps);
    WeaveGap(sep, b, seps, base + i, qs);
    WeaveConcat(a, sep + b, seps, base, ps, qs);
    assert text == a + (sep + b);
  }

  /** _split is an exact decomposition of the text. */
  lemma {:induction false} SplitDecomposes(text: string, seps: seq<string>, base: int, pieces: seq<Piece>)
    requires ProperSeps(seps) && pieces == Pieces(text, seps, base)
    ensures Weave(text, seps, base, pieces)
    decreases |text|
  {
    hide Find, FirstSep;
    if text == "" {
    } else if FirstSep(text, seps).None? {
      WholePiece(text, seps, base);
    } else {
      var sep := FirstSep(text, seps).value;
      var i := Find(text, sep, 0);
      var a, b := text[..i], text[i + |sep|..];
      var ps, qs := Pieces(a, seps, base), Pieces(b, seps, base + i + |sep|);
      assert pieces == ps + qs;
      SplitDecomposes(a, seps, base, ps);
      SplitDecomposes(b, seps, base + i + |sep|, qs);
      WeaveCut(text, i, sep, seps, base, ps, qs, pieces);
    }
  }

  /** With an empty separator in the list an empty text splits into nothing, a text that is not made of
      the separators before it fails, and without one nothing fails. */
  lemma EmptySeparatorFails(text: string, seps: seq<string>, base: int)
    ensures text == "" ==> SplitResult(text, seps, base) == Success([])
    ensures "" in seps && !SepRun(text, BeforeEmpty(seps)) ==> SplitResult(text, seps, base).Failure?
    ensures "" in seps && SplitResult(text, seps, base).Success? ==> SplitResult(text, seps, base) == Success([])
    ensures ProperSeps(seps) ==> SplitResult(text, seps, base) == Success(Pieces(text, seps, base))
  {
    hide SepRun;
    SplitDecomposes(text, BeforeEmpty(seps), base, Pieces(text, BeforeEmpty(seps), base));
  }
}
