/** Python's sort: stable, by a strict comparison. */
module Sorting {
  /** Puts x in front of the first element that does not come strictly before it. */
  function Insert<T>(x: T, s: seq<T>, lt: (T, T) -> bool): seq<T> {
    if s == [] || !lt(s[0], x) then [x] + s else [s[0]] + Insert(x, s[1..], lt)
  }

  function SortBy<T>(s: seq<T>, lt: (T, T) -> bool): seq<T> {
    if s == [] then [] else Insert(s[0], SortBy(s[1..], lt), lt)
  }

  function Take<T>(s: seq<T>, n: nat): seq<T> {
    if n <= |s| then s[..n] else s
  }

  ghost predicate Asymmetric<T(!new)>(lt: (T, T) -> bool) {
    forall x, y :: lt(x, y) ==> !lt(y, x)
  }

  ghost predicate Transitive<T(!new)>(lt: (T, T) -> bool) {
    forall x, y, z :: lt(x, y) && lt(y, z) ==> lt(x, z)
  }

  /** Not coming strictly before is transitive, as for a comparison of keys. */
  ghost predicate KeyLike<T(!new)>(lt: (T, T) -> bool) {
    && Asymmetric(lt) && Transitive(lt)
    && forall x, y, z :: !lt(x, y) && !lt(y, z) ==> !lt(x, z)
  }

  ghost predicate Sorted<T>(s: seq<T>, lt: (T, T) -> bool) {
    forall i, j :: 0 <= i < j < |s| ==> !lt(s[j], s[i])
  }

  ghost predicate StrictlySorted<T>(s: seq<T>, lt: (T, T) -> bool) {
    forall i, j :: 0 <= i < j < |s| ==> lt(s[i], s[j])
  }

  ghost predicate NoDuplicates<T>(s: seq<T>) {
    forall i, j :: 0 <= i < j < |s| ==> s[i] != s[j]
  }

  /** Each element once, in the order of first occurrence. */
  function Dedup<T(==)>(list: seq<T>): seq<T> {
    if list == [] then []
    else
      var init, last := list[..|list| - 1], list[|list| - 1];
      if last in init then Dedup(init) else Dedup(init) + [last]
  }

  lemma {:induction false} DedupMembers<T(!new)>(list: seq<T>)
    ensures NoDuplicates(Dedup(list)) && forall x :: x in Dedup(list) <==> x in list
    decreases |list|
  {
    if list != [] {
      var init, last := list[..|list| - 1], list[|list| - 1];
      DedupMembers(init);
      assert list == init + [last];
    }
  }

  lemma {:induction false} InsertElements<T>(x: T, s: seq<T>, lt: (T, T) -> bool)
    ensures multiset(Insert(x, s, lt)) == multiset(s) + multiset{x}
    decreases |s|
  {
    if s != [] && lt(s[0], x) {
      InsertElements(x, s[1..], lt);
      assert s == [s[0]] + s[1..];
    }
  }

  lemma {:induction false} SortElements<T>(s: seq<T>, lt: (T, T) -> bool)
    ensures multiset(SortBy(s, lt)) == multiset(s) && |SortBy(s, lt)| == |s|
    decreases |s|
  {
    if s != [] {
      SortElements(s[1..], lt);
      InsertElements(s[0], SortBy(s[1..], lt), lt);
      assert s == [s[0]] + s[1..];
      assert |multiset(SortBy(s, lt))| == |multiset(s)|;
    }
  }

  lemma SameMembers<T>(a: seq<T>, b: seq<T>)
    requires multiset(a) == multiset(b)
    ensures |a| == |b| && forall x :: x in a <==> x in b
  {
    assert |multiset(a)| == |a| && |multiset(b)| == |b|;
    forall x ensures x in a <==> x in b {
      assert x in a <==> x in multiset(a);
      assert x in b <==> x in multiset(b);
    }
  }

  lemma SortedFrom<T>(s: seq<T>, lt: (T, T) -> bool, i: nat) returns (j: nat)
    requires i < |SortBy(s, lt)|
    ensures j < |s| && s[j] == SortBy(s, lt)[i]
  {
    hide SortBy;
    SortElements(s, lt);
    var x := SortBy(s, lt)[i];
    assert x in multiset(SortBy(s, lt));
    j :| 0 <= j < |s| && s[j] == x;
  }

  lemma SortedHas<T>(s: seq<T>, lt: (T, T) -> bool, i: nat) returns (j: nat)
    requires i < |s|
    ensures j < |SortBy(s, lt)| && SortBy(s, lt)[j] == s[i]
  {
    hide SortBy;
    SortElements(s, lt);
    var x := s[i];
    assert x in multiset(s);
    j :| 0 <= j < |SortBy(s, lt)| && SortBy(s, lt)[j] == x;
  }

  lemma NotBefore<T(!new)>(x: T, y: T, z: T, lt: (T, T) -> bool)
    requires KeyLike(lt) && !lt(x, y) && !lt(y, z)
    ensures !lt(x, z)
  {
  }

  lemma SortedCons<T>(x: T, s: seq<T>, lt: (T, T) -> bool)
    requires Sorted(s, lt) && forall y :: y in s ==> !lt(y, x)
    ensures Sorted([x] + s, lt)
  {
  }

  lemma {:induction false} InsertSorted<T(!new)>(x: T, s: seq<T>, lt: (T, T) -> bool)
    requires KeyLike(lt) && Sorted(s, lt)
    ensures Sorted(Insert(x, s, lt), lt)
    decreases |s|
  {
    if s == [] {
    } else if lt(s[0], x) {
      assert !lt(x, s[0]);
      hide KeyLike;
      InsertSorted(x, s[1..], lt);
      InsertElements(x, s[1..], lt);
      SameMembers(Insert(x, s[1..], lt), [x] + s[1..]);
      SortedCons(s[0], Insert(x, s[1..], lt), lt);
    } else {
      hide KeyLike;
      forall y | y in s ensures !lt(y, x) {
        if y != s[0] {
          NotBefore(y, s[0], x, lt);
        }
      }
      SortedCons(x, s, lt);
    }
  }

  lemma {:induction false} SortSorts<T(!new)>(s: seq<T>, lt: (T, T) -> bool)
    requires KeyLike(lt)
    ensures Sorted(SortBy(s, lt), lt)
    decreases |s|
  {
    if s != [] {
      SortSorts(s[1..], lt);
      InsertSorted(s[0], SortBy(s[1..], lt), lt);
    }
  }

  /** Where an element is inserted: behind those that come strictly before it, in front of the rest. */
  lemma {:induction false} InsertAt<T>(x: T, s: seq<T>, lt: (T, T) -> bool) returns (p: nat)
    ensures p <= |s| && Insert(x, s, lt) == s[..p] + [x] + s[p..]
    ensures (forall i :: 0 <= i < p ==> lt(s[i], x)) && (p < |s| ==> !lt(s[p], x))
    decreases |s|
  {
    if s == [] || !lt(s[0], x) {
      p := 0;
    } else {
      var q := InsertAt(x, s[1..], lt);
      p := q + 1;
    }
  }

  /** `at` names the elements of s in a stable order: no element comes strictly before one that is
      ahead of it, and those that compare equal keep their places. */
  ghost predicate StableAt<T(!new)>(s: seq<T>, lt: (T, T) -> bool, at: seq<nat>) {
    && |at| == |s| && NoDuplicates(at)
    && (forall m: nat :: m < |s| <==> m in at)
    && (forall i, j :: 0 <= i < j < |at| ==> AheadOf(s, lt, at[i], at[j]))
  }

  ghost predicate AheadOf<T>(s: seq<T>, lt: (T, T) -> bool, a: nat, b: nat) {
    a < |s| && b < |s| && (lt(s[a], s[b]) || (!lt(s[b], s[a]) && a < b))
  }

  function Shifted(at: seq<nat>): seq<nat> {
    seq(|at|, i requires 0 <= i < |at| => at[i] + 1)
  }

  lemma InsertIndex<T(!new)>(s: seq<T>, lt: (T, T) -> bool, at: seq<nat>, p: nat)
    requires s != [] && p <= |at| && StableAt(s[1..], lt, at)
    requires forall i :: 0 <= i < p ==> at[i] + 1 < |s| && lt(s[at[i] + 1], s[0])
    requires forall i :: p <= i < |at| ==> at[i] + 1 < |s| && !lt(s[at[i] + 1], s[0])
    ensures StableAt(s, lt, Shifted(at[..p]) + [0] + Shifted(at[p..]))
  {
    var r := Shifted(at[..p]) + [0] + Shifted(at[p..]);
    forall i, j | 0 <= i < j < |r| ensures AheadOf(s, lt, r[i], r[j]) && r[i] != r[j] {
      if i != p && j != p {
        assert AheadOf(s[1..], lt, at[if i < p then i else i - 1], at[if j < p then j else j - 1]);
      }
    }
    ShiftedAll(at, p);
  }

  lemma ShiftedAll(at: seq<nat>, p: nat)
    requires p <= |at| && forall m: nat :: m < |at| <==> m in at
    ensures forall m: nat :: m < |at| + 1 <==> m in Shifted(at[..p]) + [0] + Shifted(at[p..])
  {
    var r := Shifted(at[..p]) + [0] + Shifted(at[p..]);
    assert r[p] == 0;
    forall m: nat | 0 < m ensures m < |at| + 1 <==> m in r {
      if m in r {
        var i :| 0 <= i < |r| && r[i] == m;
        assert at[if i < p then i else i - 1] == m - 1;
      }
      if m - 1 in at {
        var i :| 0 <= i < |at| && at[i] == m - 1;
        assert r[if i < p then i else i + 1] == m;
      }
    }
  }

  /** The elements of r are those of s that `at` names. */
  ghost predicate Picks<T>(r: seq<T>, s: seq<T>, at: seq<nat>) {
    |r| == |at| && forall i :: 0 <= i < |at| ==> at[i] < |s| && r[i] == s[at[i]]
  }

  lemma InsertPicks<T>(s: seq<T>, tail: seq<T>, at: seq<nat>, p: nat)
    requires s != [] && p <= |at| && Picks(tail, s[1..], at)
    ensures Picks(tail[..p] + [s[0]] + tail[p..], s, Shifted(at[..p]) + [0] + Shifted(at[p..]))
  {
    forall i | 0 <= i < |at| ensures tail[i] == s[at[i] + 1] {
      assert s[1..][at[i]] == s[at[i] + 1];
    }
  }

  lemma NoneBehind<T(!new)>(x: T, s: seq<T>, lt: (T, T) -> bool, p: nat)
    requires KeyLike(lt) && Sorted(s, lt) && p < |s| && !lt(s[p], x)
    ensures forall i :: p <= i < |s| ==> !lt(s[i], x)
  {
    forall i | p <= i < |s| ensures !lt(s[i], x) {
      if i > p {
        NotBefore(s[i], s[p], x, lt);
      }
    }
  }

  /** The sort is stable. */
  lemma {:induction false} SortStable<T(!new)>(s: seq<T>, lt: (T, T) -> bool) returns (at: seq<nat>)
    requires KeyLike(lt)
    ensures StableAt(s, lt, at) && Picks(SortBy(s, lt), s, at)
    decreases |s|
  {
    if s == [] {
      at := [];
    } else {
      var tail := SortBy(s[1..], lt);
      assert SortBy(s, lt) == Insert(s[0], tail, lt);
      var rest := SortStable(s[1..], lt);
      var p := InsertAt(s[0], tail, lt);
      SortSorts(s[1..], lt);
      hide SortBy, Insert, KeyLike, Sorted, StableAt;
      if p < |tail| {
        NoneBehind(s[0], tail, lt, p);
      }
      forall i | 0 <= i < |rest| ensures tail[i] == s[rest[i] + 1] {
        assert s[1..][rest[i]] == s[rest[i] + 1];
      }
      InsertIndex(s, lt, rest, p);
      InsertPicks(s, tail, rest, p);
      at := Shifted(rest[..p]) + [0] + Shifted(rest[p..]);
    }
  }

  /** `at` names the k elements of s that come first in a stable order, and r holds them. */
  ghost predicate FirstAt<T(!new)>(s: seq<T>, lt: (T, T) -> bool, k: nat, at: seq<nat>, r: seq<T>) {
    && Picks(r, s, at) && NoDuplicates(at) && |at| == (if k <= |s| then k else |s|)
    && (forall i, j :: 0 <= i < j < |at| ==> AheadOf(s, lt, at[i], at[j]))
    && (forall i, m: nat :: 0 <= i < |at| && m < |s| && m !in at ==> AheadOf(s, lt, at[i], m))
  }

  lemma TakeFirst<T(!new)>(s: seq<T>, lt: (T, T) -> bool, k: nat) returns (at: seq<nat>)
    requires KeyLike(lt)
    ensures FirstAt(s, lt, k, at, Take(SortBy(s, lt), k))
  {
    var all := SortStable(s, lt);
    hide SortBy, KeyLike, AheadOf;
    at := Take(all, k);
    forall i, m: nat | 0 <= i < |at| && m < |s| && m !in at ensures AheadOf(s, lt, at[i], m) {
      assert m in all;
      assert forall n :: 0 <= n < |at| ==> all[n] == at[n] && at[n] in at;
      var j :| 0 <= j < |all| && all[j] == m;
    }
  }

  /** Elements that all compare equal stay where they are. */
  lemma {:induction false} SortKeepsTies<T>(s: seq<T>, lt: (T, T) -> bool)
    requires forall x, y :: x in s && y in s ==> !lt(x, y)
    ensures SortBy(s, lt) == s
    decreases |s|
  {
    if s != [] {
      SortKeepsTies(s[1..], lt);
      assert s == [s[0]] + s[1..];
      assert s[1..] != [] ==> s[1..][0] in s;
    }
  }

  lemma HasMember<T>(s: seq<T>)
    requires s != []
    ensures exists x :: x in s
  {
    assert s[0] in s;
  }

  lemma RemoveDistinct<T(!new)>(s: seq<T>, j: nat)
    requires NoDuplicates(s) && j < |s|
    ensures NoDuplicates(s[..j] + s[j + 1..])
    ensures forall x :: x in s[..j] + s[j + 1..] <==> x in s && x != s[j]
  {
    var rest := s[..j] + s[j + 1..];
    assert forall i :: 0 <= i < |rest| ==> rest[i] == s[if i < j then i else i + 1];
    forall x | x in s && x != s[j] ensures x in rest {
      var i :| 0 <= i < |s| && s[i] == x;
      assert x == rest[if i < j then i else i - 1];
    }
  }

  lemma StrictCons<T>(x: T, s: seq<T>, lt: (T, T) -> bool)
    requires StrictlySorted(s, lt) && forall y :: y in s ==> lt(x, y)
    ensures StrictlySorted([x] + s, lt)
  {
  }

  /** At most one sequence of given elements is strictly sorted. */
  lemma {:induction false} StrictUnique<T(!new)>(a: seq<T>, b: seq<T>, lt: (T, T) -> bool)
    requires Asymmetric(lt) && StrictlySorted(a, lt) && StrictlySorted(b, lt)
    requires forall x :: x in a <==> x in b
    ensures a == b
    decreases |a|
  {
    if a == [] {
      if b != [] {
        HasMember(b);
      }
    } else {
      assert a[0] in a && a[0] in b;
      assert b[0] in b && b[0] in a;
      var i, j :| 0 <= i < |a| && a[i] == b[0] && 0 <= j < |b| && b[j] == a[0];
      assert a[0] == b[0];
      forall x ensures x in a[1..] <==> x in b[1..] {
        if x in a[1..] {
          var k :| 1 <= k < |a| && a[k] == x;
          assert lt(a[0], x);
          assert x in b;
        }
        if x in b[1..] {
          var k :| 1 <= k < |b| && b[k] == x;
          assert lt(b[0], x);
          assert x in a;
        }
      }
      StrictUnique(a[1..], b[1..], lt);
      assert a == [a[0]] + a[1..] && b == [b[0]] + b[1..];
    }
  }

  lemma {:induction false} DistinctCounts<T>(s: seq<T>)
    requires NoDuplicates(s)
    ensures forall x :: multiset(s)[x] <= 1
    decreases |s|
  {
    if s != [] {
      DistinctCounts(s[1..]);
      assert s == [s[0]] + s[1..];
      assert s[0] !in s[1..];
    }
  }

  lemma CountedTwice<T>(s: seq<T>, i: nat, j: nat)
    requires i < j < |s| && s[i] == s[j]
    ensures multiset(s)[s[i]] >= 2
  {
    assert s == s[..i] + [s[i]] + s[i + 1..j] + [s[j]] + s[j + 1..];
  }

  lemma SortKeepsDistinct<T>(s: seq<T>, lt: (T, T) -> bool)
    requires NoDuplicates(s)
    ensures NoDuplicates(SortBy(s, lt))
  {
    hide SortBy;
    var r := SortBy(s, lt);
    SortElements(s, lt);
    DistinctCounts(s);
    forall i, j | 0 <= i < j < |r| ensures r[i] != r[j] {
      if r[i] == r[j] {
        CountedTwice(r, i, j);
      }
    }
  }

  // ---------- strings ----------

  /** Python's order on strings. */
  predicate LexLess(a: string, b: string)
    decreases |a|
  {
    if b == "" then false
    else if a == "" then true
    else a[0] < b[0] || (a[0] == b[0] && LexLess(a[1..], b[1..]))
  }

  lemma {:induction false} LexAsymmetric(a: string, b: string)
    requires LexLess(a, b)
    ensures !LexLess(b, a)
    decreases |a|
  {
    if a != "" && b != "" && a[0] == b[0] {
      LexAsymmetric(a[1..], b[1..]);
    }
  }

  lemma {:induction false} LexTotal(a: string, b: string)
    ensures LexLess(a, b) || LexLess(b, a) || a == b
    decreases |a|
  {
    if a != "" && b != "" && a[0] == b[0] {
      LexTotal(a[1..], b[1..]);
      assert a == [a[0]] + a[1..] && b == [b[0]] + b[1..];
    }
  }

  lemma {:induction false} LexTransitive(a: string, b: string, c: string)
    requires LexLess(a, b) && LexLess(b, c)
    ensures LexLess(a, c)
    decreases |a|
  {
    if a != "" && a[0] == b[0] == c[0] {
      LexTransitive(a[1..], b[1..], c[1..]);
    }
  }

  lemma LexKeyLike()
    ensures KeyLike(LexLess)
  {
    forall a, b | LexLess(a, b) ensures !LexLess(b, a) {
      LexAsymmetric(a, b);
    }
    forall a, b, c | LexLess(a, b) && LexLess(b, c) ensures LexLess(a, c) {
      LexTransitive(a, b, c);
    }
    forall a, b, c | !LexLess(a, b) && !LexLess(b, c) ensures !LexLess(a, c) {
      if LexLess(a, c) {
        LexTotal(a, b);
        LexTotal(b, c);
        if a != b && b != c {
          LexTransitive(c, b, a);
          LexAsymmetric(a, c);
        }
      }
    }
  }

  /** The order on strings is that of the first difference, or of the lengths if there is none. */
  lemma {:induction false} LexByFirstDifference(a: string, b: string)
    ensures LexLess(a, b) <==> (a <= b && |a| < |b|)
                               || exists k :: 0 <= k < |a| && k < |b| && DiffersAt(a, b, k) && a[k] < b[k]
    decreases |a|
  {
    if a != "" && b != "" && a[0] == b[0] {
      LexByFirstDifference(a[1..], b[1..]);
      assert a == [a[0]] + a[1..] && b == [b[0]] + b[1..];
      if k :| 0 <= k < |a[1..]| && k < |b[1..]| && DiffersAt(a[1..], b[1..], k) && a[1..][k] < b[1..][k] {
        assert DiffersAt(a, b, k + 1);
      }
      if k :| 0 <= k < |a| && k < |b| && DiffersAt(a, b, k) && a[k] < b[k] {
        assert DiffersAt(a[1..], b[1..], k - 1) && a[1..][k - 1] < b[1..][k - 1];
      }
    } else if a != "" && b != "" {
      assert DiffersAt(a, b, 0);
    }
  }

  ghost predicate DiffersAt(a: string, b: string, k: nat)
    requires k < |a| && k < |b|
  {
    a[k] != b[k] && forall i :: 0 <= i < k ==> a[i] == b[i]
  }
}
