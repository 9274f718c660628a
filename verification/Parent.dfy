/** core/retrieval/parent.py: every hit is widened to a window of neighbouring chunks of its own
    document, one chunk at a time, right side first. */
module Parent {
  import opened Bounds
  import opened Wrappers

  type Id = string

  /** Of m chunks added around a hit with `left` chunks before it and `right` after it, how many go
      to the right: every other one, beginning on the right, until a side is used up. */
  function ToTheRight(m: nat, left: nat, right: nat): int {
    Min(right, Max((m + 1) / 2, m - left))
  }

  /** The window after m steps: [Lo, Hi). */
  function Lo(n: nat, idx: nat, m: nat): int
    requires idx < n
  {
    idx - (m - ToTheRight(m, idx, n - 1 - idx))
  }

  function Hi(n: nat, idx: nat, m: nat): int
    requires idx < n
  {
    idx + 1 + ToTheRight(m, idx, n - 1 - idx)
  }

  /** The window grows by one chunk at a time, contains the hit, and its two sides differ by at
      most one while neither is used up. */
  lemma WindowShape(n: nat, idx: nat, m: nat)
    requires idx < n && m < n
    ensures var lo, hi := Lo(n, idx, m), Hi(n, idx, m);
            && 0 <= lo <= idx < hi <= n && hi - lo == m + 1
            && (lo > 0 && hi < n ==> 0 <= (hi - idx - 1) - (idx - lo) <= 1)
            && (m + 1 < n ==> (Lo(n, idx, m + 1) == lo && Hi(n, idx, m + 1) == hi + 1)
                              || (Lo(n, idx, m + 1) == lo - 1 && Hi(n, idx, m + 1) == hi))
  {
  }

  function Size(texts: seq<string>): nat {
    if texts == [] then 0 else |texts[0]| + Size(texts[1..])
  }

  function Window(texts: seq<string>, idx: nat, m: nat): seq<string>
    requires idx < |texts| && m < |texts|
  {
    WindowShape(|texts|, idx, m);
    texts[Lo(|texts|, idx, m)..Hi(|texts|, idx, m)]
  }

  /** The least number of steps from m on after which the window is large enough or whole. */
  function Steps(texts: seq<string>, idx: nat, target: int, m: nat): (r: nat)
    requires idx < |texts| && m < |texts|
    ensures m <= r < |texts|
    decreases |texts| - m
  {
    if m == |texts| - 1 || Size(Window(texts, idx, m)) >= target then m else Steps(texts, idx, target, m + 1)
  }

  function Expansion(texts: seq<string>, idx: nat, target: int): seq<string>
    requires idx < |texts|
  {
    Window(texts, idx, Steps(texts, idx, target, 0))
  }

  lemma WholeWindow(texts: seq<string>, idx: nat)
    requires idx < |texts|
    ensures Window(texts, idx, |texts| - 1) == texts
  {
    WindowShape(|texts|, idx, |texts| - 1);
  }

  /** The expansion stops at the target or at the whole document, and not before: every smaller
      window on the way, in particular the one without the last added chunk, is below the target. */
  lemma {:induction false} StopsExactly(texts: seq<string>, idx: nat, target: int, m: nat)
    requires idx < |texts| && m < |texts|
    ensures var r := Steps(texts, idx, target, m);
            && (Size(Window(texts, idx, r)) >= target || Window(texts, idx, r) == texts)
            && forall k :: m <= k < r ==> Size(Window(texts, idx, k)) < target
    decreases |texts| - m
  {
    hide Window, Size;
    if m == |texts| - 1 {
      WholeWindow(texts, idx);
    } else if Size(Window(texts, idx, m)) < target {
      StopsExactly(texts, idx, target, m + 1);
    }
  }

  lemma {:induction false} SizeConcat(a: seq<string>, b: seq<string>)
    ensures Size(a + b) == Size(a) + Size(b)
    decreases |a|
  {
    if a == [] {
      assert a + b == b;
    } else {
      assert (a + b)[1..] == a[1..] + b;
      SizeConcat(a[1..], b);
    }
  }

  // ---------- the program ----------

  function TextOf(ordered: map<Id, string>, id: Id): string {
    GetOr(ordered, id, "")
  }

  function Texts(ordered: map<Id, string>, ids: seq<Id>): seq<string> {
    seq(|ids|, i requires 0 <= i < |ids| => TextOf(ordered, ids[i]))
  }

  /** The loop around one hit; the sides are tried in the order right, left. */
  method ExpandOne(ordered: map<Id, string>, ids: seq<Id>, idx: nat, target: int) returns (parts: seq<string>)
    requires idx < |ids|
    ensures parts == Expansion(Texts(ordered, ids), idx, target)
  {
    hide Steps, Size, Window, Lo, Hi, ToTheRight, Texts, TextOf;
    ghost var texts := Texts(ordered, ids);
    TextsAt(ordered, ids);
    ghost var m := 0;
    WindowStart(texts, idx);
    parts := [TextOf(ordered, ids[idx])];
    var size := |parts[0]|;
    var left: int, right: int := idx - 1, idx + 1;
    SizeOne(parts[0]);
    while size < target
      invariant m < |texts| && left + 1 == Lo(|texts|, idx, m) && right == Hi(|texts|, idx, m)
      invariant parts == Window(texts, idx, m) && size == Size(parts)
      invariant Steps(texts, idx, target, 0) == Steps(texts, idx, target, m)
      invariant right - idx - 1 == idx - 1 - left || right == |ids| || left == -1
      decreases |texts| - m
    {
      var extended := false;
      WindowShape(|texts|, idx, m);
      if right < |ids| {
        StepsOn(texts, idx, target, m);
        AppendPart(texts, idx, m, left + 1, right);
        var text := TextOf(ordered, ids[right]);
        SizeSnoc(parts, text);
        parts := parts + [text];
        right := right + 1;
        size := size + |text|;
        m := m + 1;
        extended := true;
        if size >= target {
          break;
        }
        WindowShape(|texts|, idx, m);
      }
      if left >= 0 {
        StepsOn(texts, idx, target, m);
        PrependPart(texts, idx, m, left + 1, right);
        var text := TextOf(ordered, ids[left]);
        SizeCons(text, parts);
        parts := [text] + parts;
        left := left - 1;
        size := size + |text|;
        m := m + 1;
        extended := true;
        if size >= target {
          break;
        }
        WindowShape(|texts|, idx, m);
      }
      if !extended {
        break;
      }
    }
    WindowShape(|texts|, idx, m);
    StepsEnd(texts, idx, target, m);
  }

  lemma TextsAt(ordered: map<Id, string>, ids: seq<Id>)
    ensures |Texts(ordered, ids)| == |ids|
    ensures forall i :: 0 <= i < |ids| ==> Texts(ordered, ids)[i] == TextOf(ordered, ids[i])
  {
  }

  lemma WindowStart(texts: seq<string>, idx: nat)
    requires idx < |texts|
    ensures Lo(|texts|, idx, 0) == idx && Hi(|texts|, idx, 0) == idx + 1 && Window(texts, idx, 0) == [texts[idx]]
  {
  }

  lemma SizeOne(s: string)
    ensures Size([s]) == |s|
  {
    assert [s][1..] == [];
  }

  lemma SizeSnoc(parts: seq<string>, s: string)
    ensures Size(parts + [s]) == Size(parts) + |s|
  {
    SizeConcat(parts, [s]);
    SizeOne(s);
  }

  lemma SizeCons(s: string, parts: seq<string>)
    ensures Size([s] + parts) == |s| + Size(parts)
  {
    SizeConcat([s], parts);
    SizeOne(s);
  }

  lemma StepsOn(texts: seq<string>, idx: nat, target: int, m: nat)
    requires idx < |texts| && m + 1 < |texts| && Size(Window(texts, idx, m)) < target
    ensures Steps(texts, idx, target, m) == Steps(texts, idx, target, m + 1)
  {
  }

  lemma StepsEnd(texts: seq<string>, idx: nat, target: int, m: nat)
    requires idx < |texts| && m < |texts| && (m + 1 == |texts| || Size(Window(texts, idx, m)) >= target)
    ensures Steps(texts, idx, target, m) == m
  {
  }

  lemma AppendPart(texts: seq<string>, idx: nat, m: nat, lo: int, hi: int)
    requires idx < |texts| && m < |texts| && lo == Lo(|texts|, idx, m) && hi == Hi(|texts|, idx, m) && hi < |texts|
    requires hi - idx - 1 == idx - lo || lo == 0
    ensures m + 1 < |texts| && Lo(|texts|, idx, m + 1) == lo && Hi(|texts|, idx, m + 1) == hi + 1
    ensures Window(texts, idx, m + 1) == Window(texts, idx, m) + [texts[hi]]
  {
    WindowShape(|texts|, idx, m);
  }

  lemma PrependPart(texts: seq<string>, idx: nat, m: nat, lo: int, hi: int)
    requires idx < |texts| && m < |texts| && lo == Lo(|texts|, idx, m) && hi == Hi(|texts|, idx, m) && lo > 0
    requires hi - idx - 1 == idx - lo + 1 || hi == |texts|
    ensures m + 1 < |texts| && Lo(|texts|, idx, m + 1) == lo - 1 && Hi(|texts|, idx, m + 1) == hi
    ensures Window(texts, idx, m + 1) == [texts[lo - 1]] + Window(texts, idx, m)
  {
    WindowShape(|texts|, idx, m);
  }

  type Doc = string

  /** The chunks of one document, in the order of the sequence. */
  function DocSeq(allIds: seq<Id>, docMap: map<Id, Doc>, doc: Doc): seq<Id> {
    if allIds == [] then []
    else
      var last := allIds[|allIds| - 1];
      DocSeq(allIds[..|allIds| - 1], docMap, doc) + if last in docMap && docMap[last] == doc then [last] else []
  }

  lemma {:induction false} DocSeqOwn(allIds: seq<Id>, docMap: map<Id, Doc>, doc: Doc)
    ensures forall id :: id in DocSeq(allIds, docMap, doc) <==> id in allIds && id in docMap && docMap[id] == doc
    decreases |allIds|
  {
    if allIds != [] {
      DocSeqOwn(allIds[..|allIds| - 1], docMap, doc);
      assert allIds == allIds[..|allIds| - 1] + [allIds[|allIds| - 1]];
    }
  }

  /** `at` are the places of the document's chunks among the first n, in order. */
  ghost predicate PlacesOf(allIds: seq<Id>, docMap: map<Id, Doc>, doc: Doc, n: nat, at: seq<nat>)
    requires n <= |allIds|
  {
    && (forall i, j :: 0 <= i < j < |at| ==> at[i] < at[j])
    && (forall m: nat :: m in at <==> m < n && allIds[m] in docMap && docMap[allIds[m]] == doc)
  }

  lemma PlacesStep(allIds: seq<Id>, docMap: map<Id, Doc>, doc: Doc, n: nat, at: seq<nat>)
    requires n < |allIds| && PlacesOf(allIds, docMap, doc, n, at)
    ensures PlacesOf(allIds, docMap, doc, n + 1,
                     if allIds[n] in docMap && docMap[allIds[n]] == doc then at + [n] else at)
  {
    assert forall i :: 0 <= i < |at| ==> at[i] in at;
  }

  /** The group of a document holds exactly its chunks of the sequence, place by place and in order. */
  lemma {:induction false} DocSeqPlaces(allIds: seq<Id>, docMap: map<Id, Doc>, doc: Doc, n: nat)
    returns (at: seq<nat>)
    requires n <= |allIds|
    ensures PlacesOf(allIds, docMap, doc, n, at)
    ensures |at| == |DocSeq(allIds[..n], docMap, doc)|
    ensures forall i :: 0 <= i < |at| ==> at[i] < n && DocSeq(allIds[..n], docMap, doc)[i] == allIds[at[i]]
    decreases n
  {
    hide PlacesOf;
    at := [];
    if n > 0 {
      at := DocSeqPlaces(allIds, docMap, doc, n - 1);
      PlacesStep(allIds, docMap, doc, n - 1, at);
      DocSeqNext(allIds, n - 1, docMap);
      hide DocSeq;
      if allIds[n - 1] in docMap && docMap[allIds[n - 1]] == doc {
        at := at + [n - 1];
      }
    } else {
      NoPlaces(allIds, docMap, doc);
    }
  }

  lemma NoPlaces(allIds: seq<Id>, docMap: map<Id, Doc>, doc: Doc)
    ensures PlacesOf(allIds, docMap, doc, 0, [])
  {
  }

  /** list.index: the first place. */
  function IndexOf(ids: seq<Id>, id: Id): nat
    requires id in ids
    ensures IndexOf(ids, id) < |ids| && ids[IndexOf(ids, id)] == id
    ensures forall i :: 0 <= i < IndexOf(ids, id) ==> ids[i] != id
  {
    if ids[0] == id then 0 else 1 + IndexOf(ids[1..], id)
  }

  /** sep.join(parts) with a blank line between the parts. */
  function JoinParts(parts: seq<string>): string {
    if parts == [] then ""
    else if |parts| == 1 then parts[0]
    else JoinParts(parts[..|parts| - 1]) + "\n\n" + parts[|parts| - 1]
  }

  /** Joining puts the blank line between the parts and nothing else. */
  lemma {:induction false} JoinConcat(a: seq<string>, b: seq<string>)
    requires a != [] && b != []
    ensures JoinParts(a + b) == JoinParts(a) + "\n\n" + JoinParts(b)
    ensures |a| == 1 ==> JoinParts(a) == a[0]
    decreases |b|
  {
    var init, last := b[..|b| - 1], b[|b| - 1];
    assert (a + b)[..|a + b| - 1] == a + init;
    if init == [] {
      assert a + init == a;
    } else {
      JoinConcat(a, init);
      assert JoinParts(a) + "\n\n" + JoinParts(init) + "\n\n" + last
          == JoinParts(a) + "\n\n" + (JoinParts(init) + "\n\n" + last);
    }
  }

  /** What a hit is widened within, given the chunks of its document: those chunks, with the hit in
      place of the first one if it is not among them, or the hit alone. */
  function Within(group: seq<Id>, id: Id): seq<Id> {
    if group == [] then [id] else if id in group then group else [id] + group[1..]
  }

  function Around(allIds: seq<Id>, docMap: map<Id, Doc>, id: Id): seq<Id> {
    Within(if id in docMap then DocSeq(allIds, docMap, docMap[id]) else [], id)
  }

  lemma HitIsWithin(group: seq<Id>, id: Id)
    ensures id in Within(group, id) && forall x :: x in Within(group, id) ==> x == id || x in group
  {
    if group != [] && id !in group {
      assert Within(group, id)[0] == id;
    }
  }

  /** The expanded text of a hit. */
  function Expanded(allIds: seq<Id>, ordered: map<Id, string>, docMap: map<Id, Doc>, id: Id, target: int): string {
    var ids := Around(allIds, docMap, id);
    HitIsWithin(if id in docMap then DocSeq(allIds, docMap, docMap[id]) else [], id);
    JoinParts(Expansion(Texts(ordered, ids), IndexOf(ids, id), target))
  }

  lemma DocSeqNext(allIds: seq<Id>, i: nat, docMap: map<Id, Doc>)
    requires i < |allIds|
    ensures var id := allIds[i];
            forall doc :: DocSeq(allIds[..i + 1], docMap, doc)
                          == DocSeq(allIds[..i], docMap, doc) + if id in docMap && docMap[id] == doc then [id] else []
  {
    assert allIds[..i + 1][..i] == allIds[..i];
  }

  lemma DocSeqNothing(allIds: seq<Id>, docMap: map<Id, Doc>)
    ensures forall doc :: DocSeq(allIds[..0], docMap, doc) == []
  {
  }

  /** seq_by_doc: the chunks grouped by document. */
  method GroupByDoc(allIds: seq<Id>, docMap: map<Id, Doc>) returns (groups: map<Doc, seq<Id>>)
    ensures forall doc :: (if doc in groups then groups[doc] else []) == DocSeq(allIds, docMap, doc)
  {
    hide DocSeq;
    groups := map[];
    DocSeqNothing(allIds, docMap);
    for i := 0 to |allIds|
      invariant forall doc :: (if doc in groups then groups[doc] else []) == DocSeq(allIds[..i], docMap, doc)
    {
      var id := allIds[i];
      DocSeqNext(allIds, i, docMap);
      if id in docMap {
        var doc := docMap[id];
        groups := groups[doc := (if doc in groups then groups[doc] else []) + [id]];
      }
    }
    assert allIds[..|allIds|] == allIds;
  }

  /** A hit that is not in the sequence of its document starts at index 0 with its own text. */
  method ExpandParents(chunkIds: seq<Id>, target: int, allIds: seq<Id>, ordered: map<Id, string>, docMap: map<Id, Doc>)
    returns (result: map<Id, string>)
    ensures forall id :: id in result <==> id in chunkIds
    ensures forall id :: id in chunkIds ==> result[id] == Expanded(allIds, ordered, docMap, id, target)
  {
    hide Expansion, DocSeq, JoinParts, Within;
    result := map[];
    var groups := GroupByDoc(allIds, docMap);
    for i := 0 to |chunkIds|
      invariant forall id :: id in result <==> id in chunkIds[..i]
      invariant forall id :: id in result ==> result[id] == Expanded(allIds, ordered, docMap, id, target)
    {
      var id := chunkIds[i];
      var group := if id in docMap && docMap[id] in groups then groups[docMap[id]] else [];
      HitIsWithin(group, id);
      var ids := Within(group, id);
      assert ids == Around(allIds, docMap, id);
      var parts := ExpandOne(ordered, ids, IndexOf(ids, id), target);
      result := result[id := JoinParts(parts)];
      assert chunkIds[..i + 1] == chunkIds[..i] + [id];
    }
    assert chunkIds[..|chunkIds|] == chunkIds;
  }

  lemma StepBefore(texts: seq<string>, idx: nat, m: nat)
    requires idx < |texts| && 0 < m < |texts|
    ensures var lo, hi := Lo(|texts|, idx, m), Hi(|texts|, idx, m);
            && 0 <= lo <= idx < hi <= |texts|
            && ((lo < idx && Window(texts, idx, m - 1) == texts[lo + 1..hi])
                || (idx + 1 < hi && Window(texts, idx, m - 1) == texts[lo..hi - 1]))
  {
    hide ToTheRight, Lo, Hi;
    WindowShape(|texts|, idx, m - 1);
    WindowShape(|texts|, idx, m);
  }

  lemma WindowIs(texts: seq<string>, idx: nat, m: nat)
    requires idx < |texts| && m < |texts|
    ensures var lo, hi := Lo(|texts|, idx, m), Hi(|texts|, idx, m);
            && 0 <= lo <= idx < hi <= |texts| && hi - lo == m + 1 && Window(texts, idx, m) == texts[lo..hi]
            && (lo > 0 && hi < |texts| ==> 0 <= (hi - idx - 1) - (idx - lo) <= 1)
  {
    WindowShape(|texts|, idx, m);
  }

  /** The run of texts an expansion takes: the hit is in it; it reaches the target or is everything;
      without the text added last it was below the target; and its sides are balanced. */
  lemma ExpansionRun(texts: seq<string>, idx: nat, target: int) returns (lo: int, hi: int)
    requires idx < |texts|
    ensures 0 <= lo <= idx < hi <= |texts| && Expansion(texts, idx, target) == texts[lo..hi]
    ensures Size(texts[lo..hi]) >= target || (lo == 0 && hi == |texts|)
    ensures hi - lo > 1 ==> (lo < idx && Size(texts[lo + 1..hi]) < target)
                            || (idx + 1 < hi && Size(texts[lo..hi - 1]) < target)
    ensures lo > 0 && hi < |texts| ==> 0 <= (hi - idx - 1) - (idx - lo) <= 1
  {
    hide Size, ToTheRight, Steps, Lo, Hi, Window;
    var m := Steps(texts, idx, target, 0);
    StopsExactly(texts, idx, target, 0);
    WindowIs(texts, idx, m);
    lo, hi := Lo(|texts|, idx, m), Hi(|texts|, idx, m);
    if m > 0 {
      StepBefore(texts, idx, m);
      assert Size(Window(texts, idx, m - 1)) < target;
    }
  }

  /** What an expansion promises: it is a contiguous run of the hit's own document that contains the
      hit; it reaches the target or is the whole document; and the run without the last added
      chunk was below the target. */
  lemma ExpansionPromise(allIds: seq<Id>, ordered: map<Id, string>, docMap: map<Id, Doc>, id: Id, target: int)
    returns (lo: int, hi: int)
    ensures var ids := Around(allIds, docMap, id);
            && id in ids
            && 0 <= lo <= IndexOf(ids, id) < hi <= |ids|
            && Expanded(allIds, ordered, docMap, id, target) == JoinParts(Texts(ordered, ids)[lo..hi])
            && (id in docMap ==> forall x :: x in ids[lo..hi] ==> x in docMap && docMap[x] == docMap[id])
            && (id in allIds && id in docMap ==> ids == DocSeq(allIds, docMap, docMap[id]))
            && (Size(Texts(ordered, ids)[lo..hi]) >= target || (lo == 0 && hi == |ids|))
            && (hi - lo > 1 ==> (lo < IndexOf(ids, id) && Size(Texts(ordered, ids)[lo + 1..hi]) < target)
                                || (IndexOf(ids, id) + 1 < hi && Size(Texts(ordered, ids)[lo..hi - 1]) < target))
            && (lo > 0 && hi < |ids| ==> 0 <= (hi - IndexOf(ids, id) - 1) - (IndexOf(ids, id) - lo) <= 1)
  {
    hide Size, JoinParts, DocSeq, Texts, Within, Expansion, IndexOf;
    var group := if id in docMap then DocSeq(allIds, docMap, docMap[id]) else [];
    HitIsWithin(group, id);
    var ids := Around(allIds, docMap, id);
    TextsAt(ordered, ids);
    lo, hi := ExpansionRun(Texts(ordered, ids), IndexOf(ids, id), target);
    if id in docMap {
      DocSeqOwn(allIds, docMap, docMap[id]);
      WithinGroup(group, id);
      forall x | x in ids[lo..hi] ensures x in docMap && docMap[x] == docMap[id] {
        assert x in ids;
      }
    }
  }

  lemma WithinGroup(group: seq<Id>, id: Id)
    ensures id in group ==> Within(group, id) == group
  {
  }
}
