/** core/retrieval/rrf.py, core/retrieval/hybrid.py and the rerank step of
    core/retrieval/search.py: reciprocal rank fusion and the rankings built on it. */
module Fusion {
  import opened Bounds
  import opened Wrappers
  import opened Sorting

  type Id = string

  // ---------- what the score means ----------

  /** The position of the first occurrence. */
  function First(id: Id, list: seq<Id>): nat
    requires id in list
    ensures First(id, list) < |list| && list[First(id, list)] == id
    ensures forall i :: 0 <= i < First(id, list) ==> list[i] != id
  {
    if list[0] == id then 0 else 1 + First(id, list[1..])
  }

  ghost function Elements(list: seq<Id>): set<Id> {
    set x | x in list
  }

  /** Rank from 1: one more than the number of distinct ids before the first occurrence. */
  ghost function Rank(id: Id, list: seq<Id>): nat
    requires id in list
  {
    |Elements(list[..First(id, list)])| + 1
  }

  /** What one list adds to the score of an id. */
  ghost function Share(id: Id, list: seq<Id>, k: nat): real {
    if id in list then 1.0 / (k + Rank(id, list)) as real else 0.0
  }

  ghost function Score(id: Id, lists: seq<seq<Id>>, k: nat): real {
    if lists == [] then 0.0
    else Score(id, lists[..|lists| - 1], k) + Share(id, lists[|lists| - 1], k)
  }

  ghost predicate Listed(id: Id, lists: seq<seq<Id>>) {
    exists list :: list in lists && id in list
  }

  // ---------- the program ----------

  lemma {:induction false} DedupElements(list: seq<Id>)
    ensures forall x :: x in Dedup(list) <==> x in list
    ensures |Dedup(list)| == |Elements(list)| && NoDuplicates(Dedup(list))
    decreases |list|
  {
    if list == [] {
      assert Elements(list) == {};
    } else {
      var init, last := list[..|list| - 1], list[|list| - 1];
      DedupElements(init);
      assert list == init + [last];
      ElementsSnoc(init, last);
    }
  }

  lemma ElementsSnoc(init: seq<Id>, last: Id)
    ensures |Elements(init + [last])| == |Elements(init)| + if last in init then 0 else 1
  {
    assert Elements(init + [last]) == Elements(init) + {last};
    if last in init {
      assert Elements(init + [last]) == Elements(init);
    }
  }

  lemma FirstOf(id: Id, list: seq<Id>, i: nat)
    requires i < |list| && list[i] == id && forall j :: 0 <= j < i ==> list[j] != id
    ensures First(id, list) == i
  {
  }

  /** Deduplication puts an id at its rank. */
  lemma {:induction false} DedupRank(list: seq<Id>, r: nat)
    requires r < |Dedup(list)|
    ensures Dedup(list)[r] in list && Rank(Dedup(list)[r], list) == r + 1
    decreases |list|
  {
    var init, last := list[..|list| - 1], list[|list| - 1];
    assert list == init + [last];
    if r < |Dedup(init)| {
      DedupRank(init, r);
      var id := Dedup(list)[r];
      FirstOf(id, list, First(id, init));
      assert list[..First(id, init)] == init[..First(id, init)];
    } else {
      DedupElements(init);
      FirstOf(last, list, |init|);
      assert list[..|init|] == init;
    }
  }

  /** Without repetitions, the share of an id is one over k plus its place from 1. */
  lemma ShareAt(list: seq<Id>, r: nat, k: nat)
    requires NoDuplicates(list) && r < |list|
    ensures Share(list[r], list, k) == 1.0 / (k + r + 1) as real
  {
    FirstOf(list[r], list, r);
    DistinctSize(list[..r]);
  }

  lemma DistinctSize(list: seq<Id>)
    requires NoDuplicates(list)
    ensures |Elements(list)| == |list|
  {
    DedupDistinct(list);
    DedupElements(list);
  }

  lemma {:induction false} DedupDistinct(list: seq<Id>)
    requires NoDuplicates(list)
    ensures Dedup(list) == list
    decreases |list|
  {
    if list != [] {
      DedupDistinct(list[..|list| - 1]);
    }
  }

  /** Deduplication keeps the order of first occurrence. */
  lemma DedupOrder(list: seq<Id>, p: nat, q: nat)
    requires p < q < |Dedup(list)|
    ensures Dedup(list)[p] in list && Dedup(list)[q] in list
    ensures First(Dedup(list)[p], list) < First(Dedup(list)[q], list)
  {
    hide Dedup, First, Rank;
    var a, b := Dedup(list)[p], Dedup(list)[q];
    DedupRank(list, p);
    DedupRank(list, q);
    if First(b, list) < First(a, list) {
      RankMonotone(b, a, list);
    }
  }

  function Flatten(lists: seq<seq<Id>>): seq<Id> {
    if lists == [] then [] else Flatten(lists[..|lists| - 1]) + lists[|lists| - 1]
  }

  /** The candidates of two lists, in the order in which they are first met. */
  lemma FlattenPair(a: seq<Id>, b: seq<Id>)
    ensures Flatten([a, b]) == a + b
  {
    assert [a, b][..1] == [a] && [a][..0] == [];
    assert Flatten([a]) == a;
  }

  method Deduplicate(ranked: seq<Id>) returns (deduped: seq<Id>)
    ensures deduped == Dedup(ranked)
  {
    hide Dedup;
    deduped := [];
    var seen: set<Id> := {};
    DedupNothing(ranked);
    for i := 0 to |ranked|
      invariant deduped == Dedup(ranked[..i])
      invariant forall x :: x in seen <==> x in ranked[..i]
    {
      DedupNext(ranked, i);
      if ranked[i] !in seen {
        seen := seen + {ranked[i]};
        deduped := deduped + [ranked[i]];
      }
    }
    assert ranked[..|ranked|] == ranked;
  }

  /** `order` is the order in which the result's keys are first written, in which a dict is
      iterated. */
  method ReciprocalRankFusion(lists: seq<seq<Id>>, k: nat) returns (scores: map<Id, real>, order: seq<Id>)
    ensures forall id :: id in scores <==> Listed(id, lists)
    ensures forall id :: id in scores ==> scores[id] == Score(id, lists, k)
    ensures order == Dedup(Flatten(lists))
  {
    hide Share, Dedup, Rank, First, Flatten;
    scores, order := map[], [];
    FlattenNothing();
    DedupNothing([]);
    for n := 0 to |lists|
      invariant Fused(lists[..n], k, scores)
      invariant order == Dedup(Flatten(lists[..n]))
    {
      var ranked := lists[n];
      var deduped := Deduplicate(ranked);
      DedupElements(ranked);
      assert Flatten(lists[..n]) + deduped[..0] == Flatten(lists[..n]);
      for r := 0 to |deduped|
        invariant HalfFused(lists[..n], k, ranked, deduped[..r], scores)
        invariant order == Dedup(Flatten(lists[..n]) + deduped[..r])
      {
        var id := deduped[r];
        DedupRank(ranked, r);
        ShareIs(id, ranked, k, r + 1);
        ghost var before := scores;
        OrderNext(lists[..n], deduped, r);
        if id !in scores {
          order := order + [id];
        }
        scores := scores[id := (if id in scores then scores[id] else 0.0) + 1.0 / (k + (r + 1)) as real];
        FuseOne(lists[..n], k, ranked, deduped, r, before, scores);
      }
      assert deduped[..|deduped|] == deduped;
      ListFused(lists, n, k, deduped, scores);
      OrderOfList(lists, n);
    }
    assert lists[..|lists|] == lists;
  }

  lemma {:induction false} FlattenLists(id: Id, lists: seq<seq<Id>>)
    ensures id in Flatten(lists) <==> Listed(id, lists)
    decreases |lists|
  {
    if lists != [] {
      var init, last := lists[..|lists| - 1], lists[|lists| - 1];
      FlattenLists(id, init);
      ListedSnoc(id, init, last);
      assert lists == init + [last];
    }
  }

  lemma DedupSnoc(x: seq<Id>, id: Id)
    ensures Dedup(x + [id]) == if id in x then Dedup(x) else Dedup(x) + [id]
  {
    assert (x + [id])[..|x|] == x;
  }

  lemma OrderNext(lists: seq<seq<Id>>, deduped: seq<Id>, r: nat)
    requires r < |deduped|
    ensures var seen := Flatten(lists) + deduped[..r];
            && Dedup(Flatten(lists) + deduped[..r + 1])
               == (if deduped[r] in seen then Dedup(seen) else Dedup(seen) + [deduped[r]])
            && (deduped[r] in seen <==> Listed(deduped[r], lists) || deduped[r] in deduped[..r])
  {
    hide Dedup, Flatten, Listed;
    var seen := Flatten(lists) + deduped[..r];
    assert Flatten(lists) + deduped[..r + 1] == seen + [deduped[r]];
    DedupSnoc(seen, deduped[r]);
    FlattenLists(deduped[r], lists);
  }

  lemma {:induction false} DedupAppend(x: seq<Id>, y: seq<Id>)
    ensures Dedup(x + Dedup(y)) == Dedup(x + y)
    decreases |y|
  {
    if y == [] {
      assert Dedup(y) == y;
    } else {
      var init, last := y[..|y| - 1], y[|y| - 1];
      DedupAppend(x, init);
      DedupElements(init);
      DedupSnoc(x + init, last);
      assert x + y == (x + init) + [last];
      if last !in init {
        DedupSnoc(x + Dedup(init), last);
        assert x + Dedup(y) == (x + Dedup(init)) + [last];
        assert last in x + Dedup(init) <==> last in x + init;
      } else {
        assert last in x + init;
      }
    }
  }

  lemma OrderOfList(lists: seq<seq<Id>>, n: nat)
    requires n < |lists|
    ensures Dedup(Flatten(lists[..n]) + Dedup(lists[n])) == Dedup(Flatten(lists[..n + 1]))
  {
    DedupAppend(Flatten(lists[..n]), lists[n]);
    assert lists[..n + 1][..n] == lists[..n];
  }

  ghost predicate Fused(lists: seq<seq<Id>>, k: nat, scores: map<Id, real>) {
    forall id :: (id in scores <==> Listed(id, lists)) && (id in scores ==> scores[id] == Score(id, lists, k))
  }

  /** The ids in `done` have their share of `ranked` added to what the earlier lists gave. */
  ghost predicate HalfFused(lists: seq<seq<Id>>, k: nat, ranked: seq<Id>, done: seq<Id>, scores: map<Id, real>) {
    forall id ::
      && (id in scores <==> Listed(id, lists) || id in done)
      && (id in scores ==> scores[id] == Score(id, lists, k) + if id in done then Share(id, ranked, k) else 0.0)
  }

  lemma ShareIs(id: Id, list: seq<Id>, k: nat, rank: nat)
    requires id in list && Rank(id, list) == rank
    ensures Share(id, list, k) == 1.0 / (k + rank) as real
  {
  }

  lemma FlattenNothing()
    ensures Flatten([]) == []
  {
  }

  lemma DedupNothing(list: seq<Id>)
    ensures Dedup(list[..0]) == []
  {
  }

  lemma DedupNext(list: seq<Id>, i: nat)
    requires i < |list|
    ensures Dedup(list[..i + 1])
            == if list[i] in list[..i] then Dedup(list[..i]) else Dedup(list[..i]) + [list[i]]
    ensures forall x :: x in list[..i + 1] <==> x in list[..i] || x == list[i]
  {
    assert list[..i + 1] == list[..i] + [list[i]];
    assert list[..i + 1][..i] == list[..i];
  }

  lemma {:induction false} UnlistedScore(id: Id, lists: seq<seq<Id>>, k: nat)
    requires !Listed(id, lists)
    ensures Score(id, lists, k) == 0.0
    decreases |lists|
  {
    if lists != [] {
      var init := lists[..|lists| - 1];
      assert lists == init + [lists[|lists| - 1]];
      assert lists[|lists| - 1] in lists;
      UnlistedScore(id, init, k);
    }
  }

  lemma FuseOne(lists: seq<seq<Id>>, k: nat, ranked: seq<Id>, deduped: seq<Id>, r: nat,
                before: map<Id, real>, after: map<Id, real>)
    requires r < |deduped| && NoDuplicates(deduped)
    requires HalfFused(lists, k, ranked, deduped[..r], before)
    requires after == before[deduped[r] := (if deduped[r] in before then before[deduped[r]] else 0.0)
                                            + Share(deduped[r], ranked, k)]
    ensures HalfFused(lists, k, ranked, deduped[..r + 1], after)
  {
    hide Score, Share, Listed;
    var id := deduped[r];
    if !Listed(id, lists) {
      UnlistedScore(id, lists, k);
    }
    assert id !in deduped[..r];
    assert deduped[..r + 1] == deduped[..r] + [id];
  }

  lemma ListFused(lists: seq<seq<Id>>, n: nat, k: nat, deduped: seq<Id>, scores: map<Id, real>)
    requires n < |lists| && HalfFused(lists[..n], k, lists[n], deduped, scores)
    requires forall x :: x in deduped <==> x in lists[n]
    ensures Fused(lists[..n + 1], k, scores)
  {
    hide Score, Share;
    assert lists[..n + 1] == lists[..n] + [lists[n]];
    forall id
      ensures (id in scores <==> Listed(id, lists[..n + 1]))
              && (id in scores ==> scores[id] == Score(id, lists[..n + 1], k))
    {
      ListedSnoc(id, lists[..n], lists[n]);
      ScoreSnoc(id, lists[..n], lists[n], k);
      if id !in lists[n] {
        ShareOutside(id, lists[n], k);
      }
    }
  }

  lemma ListedSnoc(id: Id, lists: seq<seq<Id>>, list: seq<Id>)
    ensures Listed(id, lists + [list]) <==> Listed(id, lists) || id in list
  {
    if id in list {
      assert list in lists + [list];
    }
    if Listed(id, lists) {
      var l :| l in lists && id in l;
      assert l in lists + [list];
    }
  }

  lemma ScoreSnoc(id: Id, lists: seq<seq<Id>>, list: seq<Id>, k: nat)
    ensures Score(id, lists + [list], k) == Score(id, lists, k) + Share(id, list, k)
  {
    hide Share;
    assert (lists + [list])[..|lists|] == lists;
  }

  lemma ShareOutside(id: Id, list: seq<Id>, k: nat)
    requires id !in list
    ensures Share(id, list, k) == 0.0
  {
  }

  // ---------- properties of the score ----------

  lemma {:induction false} ScoreWithout(id: Id, lists: seq<seq<Id>>, j: nat, k: nat)
    requires j < |lists|
    ensures Score(id, lists, k) == Score(id, lists[..j] + lists[j + 1..], k) + Share(id, lists[j], k)
    decreases |lists|
  {
    hide Share;
    var n := |lists| - 1;
    if j == n {
      assert lists[..j] + lists[j + 1..] == lists[..n];
    } else {
      var init := lists[..n];
      ScoreWithout(id, init, j, k);
      assert init[..j] + init[j + 1..] + [lists[n]] == lists[..j] + lists[j + 1..];
      ScoreSnoc(id, init[..j] + init[j + 1..], lists[n], k);
    }
  }

  lemma RemoveOne<T>(s: seq<T>, j: nat)
    requires j < |s|
    ensures multiset(s[..j] + s[j + 1..]) == multiset(s) - multiset{s[j]}
  {
    assert s == s[..j] + [s[j]] + s[j + 1..];
  }

  /** The score does not depend on the order of the lists. */
  lemma {:induction false} ScoreOrderFree(id: Id, a: seq<seq<Id>>, b: seq<seq<Id>>, k: nat)
    requires multiset(a) == multiset(b)
    ensures Score(id, a, k) == Score(id, b, k)
    decreases |a|
  {
    hide Score, Share;
    SameMembers(a, b);
    if a == [] {
      assert b == [];
    } else {
      var n := |a| - 1;
      assert a[n] in a && a[n] in b;
      var j :| 0 <= j < |b| && b[j] == a[n];
      RemoveOne(a, n);
      RemoveOne(b, j);
      assert a[..n] + a[n + 1..] == a[..n];
      ScoreOrderFree(id, a[..n], b[..j] + b[j + 1..], k);
      ScoreWithout(id, b, j, k);
      ScoreWithout(id, a, n, k);
    }
  }

  /** a is ahead of b wherever b is listed. */
  ghost predicate Dominates(a: Id, b: Id, lists: seq<seq<Id>>) {
    && Listed(b, lists)
    && forall list :: list in lists && b in list ==> a in list && First(a, list) < First(b, list)
  }

  lemma Reciprocal(x: nat, y: nat)
    requires 0 < x < y
    ensures 1.0 / x as real > 1.0 / y as real > 0.0
  {
  }

  lemma RankMonotone(a: Id, b: Id, list: seq<Id>)
    requires a in list && b in list && First(a, list) < First(b, list)
    ensures Rank(a, list) < Rank(b, list)
  {
    var i, j := First(a, list), First(b, list);
    var before, upTo := Elements(list[..i]), Elements(list[..j]);
    assert a in list[..j] by {
      assert list[..j][i] == a;
    }
    forall x | x in before ensures x in upTo {
      var n :| 0 <= n < i && list[..i][n] == x;
      assert list[..j][n] == x;
    }
    assert a !in before;
    SmallerSet(before, upTo, a);
  }

  lemma SmallerSet(a: set<Id>, b: set<Id>, x: Id)
    requires a <= b && x in b && x !in a
    ensures |a| < |b|
  {
    assert a + (b - a) == b && x in b - a;
  }

  lemma ShareAbove(a: Id, b: Id, list: seq<Id>, k: nat)
    requires b in list ==> a in list && First(a, list) < First(b, list)
    ensures Share(a, list, k) >= Share(b, list, k) >= 0.0
    ensures b in list ==> Share(a, list, k) > Share(b, list, k)
  {
    hide Rank;
    if b in list {
      RankMonotone(a, b, list);
      RankPositive(a, list);
      Reciprocal(k + Rank(a, list), k + Rank(b, list));
    } else if a in list {
      RankPositive(a, list);
    }
  }

  lemma RankPositive(a: Id, list: seq<Id>)
    requires a in list
    ensures Rank(a, list) > 0
  {
  }

  lemma {:induction false} ScoresAbove(a: Id, b: Id, lists: seq<seq<Id>>, k: nat)
    requires forall list :: list in lists && b in list ==> a in list && First(a, list) < First(b, list)
    ensures Score(a, lists, k) >= Score(b, lists, k)
    ensures Listed(b, lists) ==> Score(a, lists, k) > Score(b, lists, k)
    decreases |lists|
  {
    hide Share, First;
    if lists != [] {
      var init, last := lists[..|lists| - 1], lists[|lists| - 1];
      assert lists == init + [last] && last in lists;
      ScoresAbove(a, b, init, k);
      ShareAbove(a, b, last, k);
      ListedSnoc(b, init, last);
    }
  }

  /** Fusion dominance: an id ahead of another in every list containing the latter scores strictly
      higher. */
  lemma DominanceScoresHigher(a: Id, b: Id, lists: seq<seq<Id>>, k: nat)
    requires Dominates(a, b, lists)
    ensures Listed(a, lists) && Score(a, lists, k) > Score(b, lists, k)
  {
    hide Score, First;
    ScoresAbove(a, b, lists, k);
    var list :| list in lists && b in list;
    assert a in list;
  }

  // ---------- hybrid search ----------

  datatype Item = Item(id: Id, score: real)

  datatype HybridHit = HybridHit(chunkId: Id, score: real, denseScore: Option<real>)

  predicate ItemAbove(a: Item, b: Item) {
    a.score > b.score
  }

  function Ids(items: seq<Item>): seq<Id> {
    seq(|items|, i requires 0 <= i < |items| => items[i].id)
  }

  /** dict(...).get: the last entry of an id counts. */
  function Lookup(items: seq<Item>, id: Id): Option<real> {
    if items == [] then None
    else if items[|items| - 1].id == id then Some(items[|items| - 1].score)
    else Lookup(items[..|items| - 1], id)
  }

  /** The fused candidates with their scores, in dict order. */
  ghost function FusedItems(lists: seq<seq<Id>>, k: nat): seq<Item> {
    var order := Dedup(Flatten(lists));
    seq(|order|, i requires 0 <= i < |order| => Item(order[i], Score(order[i], lists, k)))
  }

  ghost function FusedRanking(lists: seq<seq<Id>>, k: nat, topK: nat): seq<Item> {
    Take(SortBy(FusedItems(lists, k), ItemAbove), topK)
  }

  ghost function FusedHits(dense: seq<Item>, sparse: seq<Id>, k: nat, topK: nat): seq<HybridHit> {
    var ranked := FusedRanking([Ids(dense), sparse], k, topK);
    seq(|ranked|, i requires 0 <= i < |ranked| =>
      HybridHit(ranked[i].id, ranked[i].score, Lookup(dense, ranked[i].id)))
  }

  /** HybridRetriever.search after the two candidate searches. */
  method HybridSearch(dense: seq<Item>, sparse: seq<Id>, k: nat, topK: nat) returns (hits: seq<HybridHit>)
    ensures hits == FusedHits(dense, sparse, k, topK)
  {
    hide Dedup, Score, SortBy, Lookup;
    var lists := [Ids(dense), sparse];
    var fusion, order := ReciprocalRankFusion(lists, k);
    DedupElements(Flatten(lists));
    forall id | id in order ensures id in fusion {
      FlattenLists(id, lists);
    }
    var items := seq(|order|, i requires 0 <= i < |order| => Item(order[i], fusion[order[i]]));
    assert items == FusedItems(lists, k);
    var ranked := Take(SortBy(items, ItemAbove), topK);
    hits := seq(|ranked|, i requires 0 <= i < |ranked| =>
      HybridHit(ranked[i].id, ranked[i].score, Lookup(dense, ranked[i].id)));
  }

  lemma ItemOrder()
    ensures KeyLike(ItemAbove)
  {
  }

  /** a comes before b: by a higher score, or, at equal scores, by where it is listed first. */
  ghost predicate RankedBefore(lists: seq<seq<Id>>, k: nat, a: Id, b: Id) {
    var all := Flatten(lists);
    && a in all && b in all
    && (Score(a, lists, k) > Score(b, lists, k)
        || (Score(a, lists, k) == Score(b, lists, k) && First(a, all) < First(b, all)))
  }

  /** `ranked` are the topK best of the listed ids, or all of them if there are fewer, each once and
      with its score, in order. */
  ghost predicate AreBest(lists: seq<seq<Id>>, k: nat, topK: nat, ranked: seq<Item>) {
    && |ranked| == Min(topK, |Elements(Flatten(lists))|)
    && (forall x :: x in ranked ==> Listed(x.id, lists) && x.score == Score(x.id, lists, k))
    && (forall i, j :: 0 <= i < j < |ranked| ==> RankedBefore(lists, k, ranked[i].id, ranked[j].id))
    && (forall i, id :: 0 <= i < |ranked| && Listed(id, lists) && (forall x :: x in ranked ==> x.id != id)
          ==> RankedBefore(lists, k, ranked[i].id, id))
  }

  lemma ItemAt(lists: seq<seq<Id>>, k: nat, m: nat)
    requires m < |FusedItems(lists, k)|
    ensures var id := FusedItems(lists, k)[m].id;
            id == Dedup(Flatten(lists))[m] && Listed(id, lists) && FusedItems(lists, k)[m].score == Score(id, lists, k)
  {
    hide Score, Dedup, Flatten;
    DedupElements(Flatten(lists));
    FlattenLists(Dedup(Flatten(lists))[m], lists);
  }

  lemma AheadIsBefore(lists: seq<seq<Id>>, k: nat, p: nat, q: nat)
    requires AheadOf(FusedItems(lists, k), ItemAbove, p, q)
    ensures RankedBefore(lists, k, FusedItems(lists, k)[p].id, FusedItems(lists, k)[q].id)
  {
    hide Score, Dedup, Flatten, First, FusedItems;
    ItemAt(lists, k, p);
    ItemAt(lists, k, q);
    FlattenLists(FusedItems(lists, k)[p].id, lists);
    FlattenLists(FusedItems(lists, k)[q].id, lists);
    ItemCount(lists, k);
    if p < q {
      DedupOrder(Flatten(lists), p, q);
    }
  }

  lemma ItemCount(lists: seq<seq<Id>>, k: nat)
    ensures |FusedItems(lists, k)| == |Dedup(Flatten(lists))| == |Elements(Flatten(lists))|
  {
    hide Score, Dedup, Flatten;
    DedupElements(Flatten(lists));
  }

  /** The fused ranking is exactly the best of the listed ids. */
  lemma RankingExact(lists: seq<seq<Id>>, k: nat, topK: nat)
    ensures AreBest(lists, k, topK, FusedRanking(lists, k, topK))
  {
    var items, ranked := FusedItems(lists, k), FusedRanking(lists, k, topK);
    ItemOrder();
    var at := TakeFirst(items, ItemAbove, topK);
    ItemCount(lists, k);
    hide Score, SortBy, Take, FusedItems, FusedRanking, AheadOf, RankedBefore, Flatten, Listed;
    forall i | 0 <= i < |ranked|
      ensures Listed(ranked[i].id, lists) && ranked[i].score == Score(ranked[i].id, lists, k)
    {
      ItemAt(lists, k, at[i]);
    }
    forall i, j | 0 <= i < j < |ranked| ensures RankedBefore(lists, k, ranked[i].id, ranked[j].id) {
      AheadIsBefore(lists, k, at[i], at[j]);
    }
    forall i, id | 0 <= i < |ranked| && Listed(id, lists) && forall x :: x in ranked ==> x.id != id
      ensures RankedBefore(lists, k, ranked[i].id, id)
    {
      var m := ItemOf(lists, k, id);
      assert forall n :: 0 <= n < |at| ==> items[at[n]] == ranked[n] && ranked[n] in ranked;
      assert m !in at;
      AheadIsBefore(lists, k, at[i], m);
    }
  }

  lemma ItemOf(lists: seq<seq<Id>>, k: nat, id: Id) returns (m: nat)
    requires Listed(id, lists)
    ensures m < |FusedItems(lists, k)| && FusedItems(lists, k)[m].id == id
  {
    hide Score, Dedup;
    FusedItem(lists, k, id);
    var x := Item(id, Score(id, lists, k));
    m :| 0 <= m < |FusedItems(lists, k)| && FusedItems(lists, k)[m] == x;
  }

  /** The score of the last entry of an id. */
  lemma {:induction false} LookupExact(items: seq<Item>, id: Id)
    ensures match Lookup(items, id)
            case None => forall i :: 0 <= i < |items| ==> items[i].id != id
            case Some(v) => exists i :: 0 <= i < |items| && items[i] == Item(id, v) && LastAt(items, i)
    decreases |items|
  {
    if items != [] {
      var n := |items| - 1;
      if items[n].id == id {
        assert LastAt(items, n);
      } else {
        LookupExact(items[..n], id);
        if Lookup(items, id).Some? {
          var i :| 0 <= i < n && items[..n][i] == Item(id, Lookup(items, id).value) && LastAt(items[..n], i);
          assert LastAt(items, i);
        }
      }
    }
  }

  /** No later entry has the same id. */
  ghost predicate LastAt(items: seq<Item>, i: nat) {
    i < |items| && forall j :: i < j < |items| ==> items[j].id != items[i].id
  }

  /** A hit carries its id's fused score and the dense score, if there is one. */
  lemma HitsCarryScores(dense: seq<Item>, sparse: seq<Id>, k: nat, topK: nat, i: nat)
    requires i < |FusedHits(dense, sparse, k, topK)|
    ensures var h := FusedHits(dense, sparse, k, topK)[i];
            && h.score == Share(h.chunkId, Ids(dense), k) + Share(h.chunkId, sparse, k)
            && (h.denseScore.None? <==> h.chunkId !in Ids(dense))
            && (h.denseScore.Some? ==> Item(h.chunkId, h.denseScore.value) in dense)
  {
    hide Share, FusedRanking, Lookup;
    var lists := [Ids(dense), sparse];
    var h := FusedHits(dense, sparse, k, topK)[i];
    RankingExact(lists, k, topK);
    assert FusedRanking(lists, k, topK)[i] in FusedRanking(lists, k, topK);
    ScoreSnoc(h.chunkId, [Ids(dense)], sparse, k);
    ScoreSnoc(h.chunkId, [], Ids(dense), k);
    assert [] + [Ids(dense)] == [Ids(dense)] && [Ids(dense)] + [sparse] == lists;
    LookupExact(dense, h.chunkId);
    InIds(dense, h.chunkId);
  }

  /** Where each id has one entry, that entry counts. */
  lemma UniqueLookup(items: seq<Item>, j: nat)
    requires j < |items| && NoDuplicates(Ids(items))
    ensures Lookup(items, items[j].id) == Some(items[j].score)
  {
    hide Lookup;
    LookupExact(items, items[j].id);
    assert forall i :: 0 <= i < |items| ==> Ids(items)[i] == items[i].id;
  }

  lemma InIds(items: seq<Item>, id: Id)
    ensures id in Ids(items) <==> exists i :: 0 <= i < |items| && items[i].id == id
  {
    if i :| 0 <= i < |items| && items[i].id == id {
      assert Ids(items)[i] == id;
    }
  }

  lemma FusedItem(lists: seq<seq<Id>>, k: nat, id: Id)
    requires Listed(id, lists)
    ensures Item(id, Score(id, lists, k)) in FusedItems(lists, k)
  {
    hide Score, Dedup;
    FlattenLists(id, lists);
    var order := Dedup(Flatten(lists));
    DedupElements(Flatten(lists));
    var i :| 0 <= i < |order| && order[i] == id;
    assert FusedItems(lists, k)[i] == Item(id, Score(id, lists, k));
  }

  lemma FusedIdsAreListed(lists: seq<seq<Id>>, k: nat, topK: nat, i: nat)
    requires i < |FusedRanking(lists, k, topK)|
    ensures Listed(FusedRanking(lists, k, topK)[i].id, lists)
  {
    hide Score, Dedup, SortBy, Flatten;
    var items := FusedItems(lists, k);
    SortElements(items, ItemAbove);
    SameMembers(SortBy(items, ItemAbove), items);
    var x := FusedRanking(lists, k, topK)[i];
    assert x in SortBy(items, ItemAbove);
    DedupElements(Flatten(lists));
    FlattenLists(x.id, lists);
  }

  lemma HitsAreListed(dense: seq<Item>, sparse: seq<Id>, k: nat, topK: nat, hit: HybridHit)
    requires hit in FusedHits(dense, sparse, k, topK)
    ensures hit.chunkId in Ids(dense) || hit.chunkId in sparse
  {
    hide FusedRanking;
    var i :| 0 <= i < |FusedRanking([Ids(dense), sparse], k, topK)|
             && FusedRanking([Ids(dense), sparse], k, topK)[i].id == hit.chunkId;
    FusedIdsAreListed([Ids(dense), sparse], k, topK, i);
  }

  lemma ItemScore(lists: seq<seq<Id>>, k: nat, item: Item)
    requires item in FusedItems(lists, k)
    ensures item.score == Score(item.id, lists, k)
  {
    hide Score, Dedup;
  }

  /** The truncated ranking is closed upward under dominance: with an id it holds, earlier, every
      id that dominates it. */
  lemma RankingClosedUpward(lists: seq<seq<Id>>, k: nat, topK: nat, a: Id, j: nat)
    requires j < |FusedRanking(lists, k, topK)| && Dominates(a, FusedRanking(lists, k, topK)[j].id, lists)
    ensures exists i :: 0 <= i < j && FusedRanking(lists, k, topK)[i].id == a
  {
    hide Score, First, SortBy, FusedItems, Dominates;
    var items := FusedItems(lists, k);
    var sorted := SortBy(items, ItemAbove);
    var b := sorted[j];
    SortSorts(items, ItemAbove);
    SortElements(items, ItemAbove);
    SameMembers(sorted, items);
    assert b in sorted;
    ItemScore(lists, k, b);
    DominanceScoresHigher(a, b.id, lists, k);
    FusedItem(lists, k, a);
    var x := Item(a, Score(a, lists, k));
    assert x in sorted;
    var i :| 0 <= i < |sorted| && sorted[i] == x;
    assert ItemAbove(x, b);
    assert i < j;
    assert FusedRanking(lists, k, topK)[i].id == a;
  }

  // ---------- reranking ----------

  datatype Pair<T> = Pair(hit: T, score: real)

  predicate PairAbove<T>(a: Pair<T>, b: Pair<T>) {
    a.score > b.score
  }

  function Zip<T>(hits: seq<T>, scores: seq<real>): seq<Pair<T>>
    requires |hits| == |scores|
  {
    seq(|hits|, i requires 0 <= i < |hits| => Pair(hits[i], scores[i]))
  }

  /** zip, stable sort by descending rerank score, truncate. */
  function Rerank<T>(hits: seq<T>, scores: seq<real>, rerankTopK: nat): seq<Pair<T>>
    requires |hits| == |scores|
  {
    Take(SortBy(Zip(hits, scores), PairAbove), rerankTopK)
  }

  lemma PairOrder<T(!new)>()
    ensures KeyLike<Pair<T>>(PairAbove)
  {
  }

  /** Pair i of the reranking is the hit at[i] with its own rerank score; the scores do not rise; equal
      scores keep the order of the hits; and hits left out are behind all that are kept. */
  ghost predicate IsReranking<T>(hits: seq<T>, scores: seq<real>, topK: nat, at: seq<nat>, r: seq<Pair<T>>) {
    && |hits| == |scores| && |r| == |at| == Min(topK, |hits|) && NoDuplicates(at)
    && (forall i :: 0 <= i < |at| ==> at[i] < |hits| && r[i] == Pair(hits[at[i]], scores[at[i]]))
    && (forall i, j :: 0 <= i < j < |at| ==>
          scores[at[i]] > scores[at[j]] || (scores[at[i]] == scores[at[j]] && at[i] < at[j]))
    && (forall i, m: nat :: 0 <= i < |at| && m < |hits| && m !in at ==>
          scores[at[i]] > scores[m] || (scores[at[i]] == scores[m] && at[i] < m))
  }

  lemma RerankExact<T(!new)>(hits: seq<T>, scores: seq<real>, topK: nat) returns (at: seq<nat>)
    requires |hits| == |scores|
    ensures IsReranking(hits, scores, topK, at, Rerank(hits, scores, topK))
  {
    hide SortBy, Take;
    PairOrder<T>();
    at := TakeFirst(Zip(hits, scores), PairAbove, topK);
    forall i, j | 0 <= i < j < |at|
      ensures scores[at[i]] > scores[at[j]] || (scores[at[i]] == scores[at[j]] && at[i] < at[j])
    {
      assert AheadOf(Zip(hits, scores), PairAbove, at[i], at[j]);
    }
    forall i, m: nat | 0 <= i < |at| && m < |hits| && m !in at
      ensures scores[at[i]] > scores[m] || (scores[at[i]] == scores[m] && at[i] < m)
    {
      assert AheadOf(Zip(hits, scores), PairAbove, at[i], m);
    }
  }

  lemma RerankedAreHits<T>(hits: seq<T>, scores: seq<real>, rerankTopK: nat, i: nat)
    requires |hits| == |scores| && i < |Rerank(hits, scores, rerankTopK)|
    ensures Rerank(hits, scores, rerankTopK)[i].hit in hits
  {
    hide SortBy;
    var pairs := Zip(hits, scores);
    SortElements(pairs, PairAbove);
    var pair := SortBy(pairs, PairAbove)[i];
    var j := SortedFrom(pairs, PairAbove, i);
    assert hits[j] == pair.hit;
  }

  /** With the no-op reranker, which scores every document 1.0, the fusion order is kept. */
  lemma NoopKeepsOrder<T>(hits: seq<T>, scores: seq<real>, rerankTopK: nat)
    requires |hits| == |scores| && forall i :: 0 <= i < |scores| ==> scores[i] == 1.0
    ensures var r := Rerank(hits, scores, rerankTopK);
            |r| == |Take(hits, rerankTopK)| && forall i :: 0 <= i < |r| ==> r[i] == Pair(hits[i], 1.0)
  {
    SortKeepsTies(Zip(hits, scores), PairAbove);
  }
}
