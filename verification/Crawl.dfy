/** core/ingest/crawl.py with the subscription rows of core/storage/registry.py: due subscriptions
    are fetched one by one, and changed content is queued for ingestion. */
module Crawl {
  import opened Wrappers
  import opened Sorting

  type SubId = string
  type Kb = string

  /** Times are hours; the last hash is the content it was taken of, and None for the empty string
      of a subscription that was never fetched, which no content hashes to. */
  datatype Sub = Sub(kb: Kb, url: string, interval: nat, lastHash: Option<string>, lastFetched: Option<int>,
                     next: Option<int>, enabled: bool, lastError: string)

  /** `order` is the order of the rows; `docs` the contents a KB has a document of; `queued` the
      contents queued for ingestion. */
  datatype Registry = Registry(order: seq<SubId>, subs: map<SubId, Sub>, docs: set<(Kb, string)>,
                               queued: seq<(Kb, string)>)

  datatype Outcome = Blocked(detail: string) | FetchError(detail: string) | Content(text: string)

  /** What raises otherwise: fetching or looking the content up; creating the document; with the
      document committed, creating the job, writing its source or queueing it; or updating the
      subscription. */
  datatype Fault = NoFault | FetchRaises | DocRaises | JobRaises | MarkRaises

  /** One fetch: the clock it reads, what the site gives, and what raises. */
  datatype Fetch = Fetch(now: int, outcome: Outcome, fault: Fault)

  datatype Status = Missing | SsrfBlocked | Failed | Unchanged | Ingested | Raised

  function MarkError(r: Registry, id: SubId, error: string, now: int, next: int): Registry
    requires id in r.subs
  {
    r.(subs := r.subs[id := r.subs[id].(lastError := error, lastFetched := Some(now), next := Some(next))])
  }

  function MarkFetched(r: Registry, id: SubId, hash: string, now: int, next: int): Registry
    requires id in r.subs
  {
    r.(subs := r.subs[id := r.subs[id].(lastHash := Some(hash), lastError := "", lastFetched := Some(now),
                                             next := Some(next))])
  }

  /** The last step of a fetch: the subscription row is updated, or that raises. */
  function Finish(r: Registry, marked: Registry, status: Status, fault: Fault): (Registry, Status) {
    if fault.MarkRaises? then (r, Raised) else (marked, status)
  }

  function FetchSubscription(r: Registry, id: SubId, f: Fetch): (Registry, Status) {
    if id !in r.subs then (r, Missing)
    else if f.fault.FetchRaises? then (r, Raised)
    else
      var sub := r.subs[id];
      var next := f.now + sub.interval;
      match f.outcome
      case Blocked(detail) => Finish(r, MarkError(r, id, detail, f.now, next), SsrfBlocked, f.fault)
      case FetchError(detail) => Finish(r, MarkError(r, id, detail, f.now, next), Failed, f.fault)
      case Content(text) =>
        if Some(text) == sub.lastHash then Finish(r, MarkFetched(r, id, text, f.now, next), Unchanged, f.fault)
        else if (sub.kb, text) in r.docs then Finish(r, MarkFetched(r, id, text, f.now, next), Ingested, f.fault)
        else if f.fault.DocRaises? then (r, Raised)
        else
          var r' := r.(docs := r.docs + {(sub.kb, text)});
          if f.fault.JobRaises? then (r', Raised)
          else
            var r'' := r'.(queued := r'.queued + [(sub.kb, text)]);
            Finish(r'', MarkFetched(r'', id, text, f.now, next), Ingested, f.fault)
  }

  predicate IsDue(r: Registry, id: SubId, now: int) {
    id in r.subs && r.subs[id].enabled && (r.subs[id].next.None? || r.subs[id].next.value <= now)
  }

  function DueRows(r: Registry, order: seq<SubId>, now: int): seq<SubId> {
    if order == [] then []
    else DueRows(r, order[..|order| - 1], now)
         + if IsDue(r, order[|order| - 1], now) then [order[|order| - 1]] else []
  }

  function UrlOf(r: Registry, id: SubId): string {
    if id in r.subs then r.subs[id].url else ""
  }

  function ByUrl(r: Registry): (SubId, SubId) -> bool {
    (a, b) => LexLess(UrlOf(r, a), UrlOf(r, b))
  }

  /** list_due_subscriptions: ordered by URL. */
  function Due(r: Registry, now: int): seq<SubId> {
    SortBy(DueRows(r, r.order, now), ByUrl(r))
  }

  /** The first n fetches of a pass over `due`; a raise ends the pass. */
  function Crawled(r: Registry, due: seq<SubId>, fetches: seq<Fetch>, n: nat): (Registry, seq<Status>)
    requires n <= |due| == |fetches|
    ensures |Crawled(r, due, fetches, n).1| <= n
    ensures Raised !in Crawled(r, due, fetches, n).1 ==> |Crawled(r, due, fetches, n).1| == n
  {
    if n == 0 then (r, [])
    else
      var (r', statuses) := Crawled(r, due, fetches, n - 1);
      if Raised in statuses then (r', statuses)
      else
        var (r'', status) := FetchSubscription(r', due[n - 1], fetches[n - 1]);
        (r'', statuses + [status])
  }

  // ---------- one subscription is not fetched too often ----------

  /** A fetch that took place. */
  datatype Entry = Entry(id: SubId, at: int, status: Status)

  function Log(due: seq<SubId>, fetches: seq<Fetch>, statuses: seq<Status>): seq<Entry>
    requires |statuses| <= |due| == |fetches|
  {
    seq(|statuses|, i requires 0 <= i < |statuses| => Entry(due[i], fetches[i].now, statuses[i]))
  }

  datatype Pass = Pass(listedAt: int, fetches: seq<Fetch>)

  /** Every clock reading of a pass is at or after its listing. Clocks of different passes need not
      be ordered. */
  ghost predicate LegalPass(r: Registry, pass: Pass) {
    && |pass.fetches| == |Due(r, pass.listedAt)|
    && forall f :: f in pass.fetches ==> f.now >= pass.listedAt
  }

  function AfterPass(r: Registry, pass: Pass): Registry
    requires |pass.fetches| == |Due(r, pass.listedAt)|
  {
    Crawled(r, Due(r, pass.listedAt), pass.fetches, |pass.fetches|).0
  }

  function PassLog(r: Registry, pass: Pass): seq<Entry>
    requires |pass.fetches| == |Due(r, pass.listedAt)|
  {
    var due := Due(r, pass.listedAt);
    Log(due, pass.fetches, Crawled(r, due, pass.fetches, |pass.fetches|).1)
  }

  ghost predicate Legal(r: Registry, passes: seq<Pass>)
    decreases |passes|
  {
    passes == [] || (LegalPass(r, passes[0]) && Legal(AfterPass(r, passes[0]), passes[1..]))
  }

  ghost function AfterAll(r: Registry, passes: seq<Pass>): Registry
    requires Legal(r, passes)
    decreases |passes|
  {
    if passes == [] then r else AfterAll(AfterPass(r, passes[0]), passes[1..])
  }

  ghost function WholeLog(r: Registry, passes: seq<Pass>): seq<Entry>
    requires Legal(r, passes)
    decreases |passes|
  {
    if passes == [] then [] else PassLog(r, passes[0]) + WholeLog(AfterPass(r, passes[0]), passes[1..])
  }

  /** Each row once. */
  ghost predicate Rows(r: Registry) {
    NoDuplicates(r.order) && forall id :: id in r.order <==> id in r.subs
  }

  /** No fetch in `log` comes sooner after an earlier one of its subscription than the interval,
      and the cursor is at least an interval after all of them; a fetch that raised does not
      count, because it leaves the cursor where it was. */
  ghost predicate Spaced(r: Registry, log: seq<Entry>) {
    && (forall i, j :: 0 <= i < j < |log| && log[i].id == log[j].id && log[i].status != Raised
                       && log[i].id in r.subs ==>
          log[j].at >= log[i].at + r.subs[log[i].id].interval)
    && (forall i :: 0 <= i < |log| && log[i].status != Raised && log[i].id in r.subs ==>
          && r.subs[log[i].id].next.Some?
          && r.subs[log[i].id].next.value >= log[i].at + r.subs[log[i].id].interval)
  }

  /** Same rows with the same settings. */
  ghost predicate SameRows(r: Registry, r': Registry) {
    && r'.order == r.order && r'.subs.Keys == r.subs.Keys
    && forall id :: id in r.subs ==> r'.subs[id].interval == r.subs[id].interval
  }

  /** Only the row of `id` changes, and its cursor becomes `next`. */
  ghost predicate Moved(r: Registry, r': Registry, id: SubId, next: Option<int>) {
    && SameRows(r, r') && (forall x :: x in r.subs && x != id ==> r'.subs[x] == r.subs[x])
    && (id in r.subs ==> r'.subs[id].next == next)
  }

  lemma MarkMoves(r: Registry, r0: Registry, id: SubId, s: string, now: int, next: int)
    requires id in r.subs && r0.subs == r.subs && r0.order == r.order
    ensures Moved(r, MarkError(r0, id, s, now, next), id, Some(next))
    ensures Moved(r, MarkFetched(r0, id, s, now, next), id, Some(next))
    ensures Moved(r, r0, id, r.subs[id].next)
  {
  }

  lemma MarksMove(r: Registry, id: SubId, f: Fetch)
    requires id in r.subs
    ensures var (r', status) := FetchSubscription(r, id, f);
            Moved(r, r', id, if status == Raised then r.subs[id].next else Some(f.now + r.subs[id].interval))
  {
    hide Moved, MarkError, MarkFetched;
    var sub := r.subs[id];
    var next := f.now + sub.interval;
    MarkMoves(r, r, id, if f.outcome.Content? then f.outcome.text else f.outcome.detail, f.now, next);
    if f.outcome.Content? {
      var r1 := r.(docs := r.docs + {(sub.kb, f.outcome.text)});
      var r2 := r1.(queued := r1.queued + [(sub.kb, f.outcome.text)]);
      MarkMoves(r, r1, id, f.outcome.text, f.now, next);
      MarkMoves(r, r2, id, f.outcome.text, f.now, next);
    }
  }

  /** A fetch moves the cursor of its subscription one interval ahead, unless it raises, and touches
      no other row. */
  lemma FetchCursor(r: Registry, id: SubId, f: Fetch)
    ensures var (r', status) := FetchSubscription(r, id, f);
            if id !in r.subs then r' == r && status == Missing
            else Moved(r, r', id, if status == Raised then r.subs[id].next else Some(f.now + r.subs[id].interval))
  {
    if id in r.subs {
      MarksMove(r, id, f);
    }
    hide Moved, MarkError, MarkFetched;
  }

  lemma FetchKeepsSpaced(r: Registry, log: seq<Entry>, id: SubId, f: Fetch)
    requires Spaced(r, log) && IsDue(r, id, f.now)
    ensures var (r', status) := FetchSubscription(r, id, f);
            Spaced(r', log + [Entry(id, f.now, status)])
  {
    hide FetchSubscription;
    FetchCursor(r, id, f);
  }

  lemma {:induction false} DueRowsOnce(r: Registry, order: seq<SubId>, now: int)
    requires NoDuplicates(order)
    ensures NoDuplicates(DueRows(r, order, now))
    ensures forall id :: id in DueRows(r, order, now) <==> id in order && IsDue(r, id, now)
    decreases |order|
  {
    if order != [] {
      var init, last := order[..|order| - 1], order[|order| - 1];
      DueRowsOnce(r, init, now);
      assert order == init + [last];
      assert last !in init;
    }
  }

  /** The due list holds exactly once every enabled subscription that was never fetched or whose next
      fetch is not later than now. */
  lemma DueExactly(r: Registry, now: int)
    requires Rows(r)
    ensures NoDuplicates(Due(r, now))
    ensures forall id :: id in Due(r, now) <==> IsDue(r, id, now)
    ensures forall id :: id in Due(r, now) <==>
              id in r.subs && r.subs[id].enabled && (r.subs[id].next == None || r.subs[id].next.value <= now)
  {
    var lt := ByUrl(r);
    DueRowsOnce(r, r.order, now);
    SortElements(DueRows(r, r.order, now), lt);
    SameMembers(SortBy(DueRows(r, r.order, now), lt), DueRows(r, r.order, now));
    SortKeepsDistinct(DueRows(r, r.order, now), lt);
  }

  lemma UrlOrder(r: Registry)
    ensures KeyLike(ByUrl(r))
  {
    hide LexLess;
    LexKeyLike();
  }

  /** The due list is in the order of the URLs. */
  lemma DueByUrl(r: Registry, now: int, i: nat, j: nat)
    requires Rows(r) && i < j < |Due(r, now)|
    ensures var a, b := Due(r, now)[i], Due(r, now)[j];
            a in r.subs && b in r.subs && (LexLess(r.subs[a].url, r.subs[b].url) || r.subs[a].url == r.subs[b].url)
  {
    hide LexLess, DueRows, SortBy;
    UrlOrder(r);
    SortSorts(DueRows(r, r.order, now), ByUrl(r));
    DueExactly(r, now);
    var a, b := Due(r, now)[i], Due(r, now)[j];
    assert a in Due(r, now) && b in Due(r, now) && !ByUrl(r)(b, a);
    LexTotal(r.subs[a].url, r.subs[b].url);
  }

  lemma CrawledNext(r: Registry, due: seq<SubId>, fetches: seq<Fetch>, n: nat)
    requires n < |due| == |fetches|
    ensures var (a, sts), (b, sts') := Crawled(r, due, fetches, n), Crawled(r, due, fetches, n + 1);
            if Raised in sts then (b, sts') == (a, sts)
            else
              && |sts| == n
              && b == FetchSubscription(a, due[n], fetches[n]).0
              && Log(due, fetches, sts')
                 == Log(due, fetches, sts) + [Entry(due[n], fetches[n].now, FetchSubscription(a, due[n], fetches[n]).1)]
  {
    hide FetchSubscription;
  }

  lemma {:induction false} PassKeepsSpaced(r: Registry, log: seq<Entry>, due: seq<SubId>, listedAt: int,
                                           fetches: seq<Fetch>, n: nat)
    requires n <= |due| == |fetches| && NoDuplicates(due) && Spaced(r, log)
    requires forall id :: id in due ==> IsDue(r, id, listedAt)
    requires forall f :: f in fetches ==> f.now >= listedAt
    ensures var (r', statuses) := Crawled(r, due, fetches, n);
            && Spaced(r', log + Log(due, fetches, statuses)) && SameRows(r, r')
            && forall k :: n <= k < |due| ==> due[k] in r'.subs && r'.subs[due[k]] == r.subs[due[k]]
    decreases n
  {
    hide Crawled, FetchSubscription, Spaced, Log;
    if n == 0 {
      NothingCrawled(r, due, fetches);
      assert log + [] == log;
      assert forall k :: 0 <= k < |due| ==> due[k] in due;
    } else {
      PassKeepsSpaced(r, log, due, listedAt, fetches, n - 1);
      CrawledNext(r, due, fetches, n - 1);
      var (a, statuses) := Crawled(r, due, fetches, n - 1);
      var so := log + Log(due, fetches, statuses);
      if Raised !in statuses {
        var id, f := due[n - 1], fetches[n - 1];
        assert id in due && f in fetches;
        FetchKeepsSpaced(a, so, id, f);
        FetchCursor(a, id, f);
        var entry := Entry(id, f.now, FetchSubscription(a, id, f).1);
        assert log + (Log(due, fetches, statuses) + [entry]) == so + [entry];
      }
    }
  }

  lemma NothingCrawled(r: Registry, due: seq<SubId>, fetches: seq<Fetch>)
    requires |due| == |fetches|
    ensures Crawled(r, due, fetches, 0) == (r, []) && Log(due, fetches, []) == []
  {
  }

  lemma {:induction false} PassesKeepSpaced(r: Registry, log: seq<Entry>, passes: seq<Pass>)
    requires Rows(r) && Legal(r, passes) && Spaced(r, log)
    ensures Spaced(AfterAll(r, passes), log + WholeLog(r, passes)) && SameRows(r, AfterAll(r, passes))
    decreases |passes|
  {
    hide Spaced, Crawled, Due, Log;
    if passes == [] {
      assert log + [] == log;
    } else {
      var pass := passes[0];
      DueExactly(r, pass.listedAt);
      PassKeepsSpaced(r, log, Due(r, pass.listedAt), pass.listedAt, pass.fetches, |pass.fetches|);
      PassesKeepSpaced(AfterPass(r, pass), log + PassLog(r, pass), passes[1..]);
      assert log + WholeLog(r, passes) == log + PassLog(r, pass) + WholeLog(AfterPass(r, pass), passes[1..]);
    }
  }

  lemma NothingFetched(r: Registry)
    ensures Spaced(r, [])
  {
  }

  lemma SpacedApart(r: Registry, log: seq<Entry>, i: nat, j: nat)
    requires Spaced(r, log) && i < j < |log| && log[i].id == log[j].id && log[i].status != Raised && log[i].id in r.subs
    ensures log[j].at >= log[i].at + r.subs[log[i].id].interval
  {
  }

  /** Over any sequence of passes, two fetches of one subscription are at least its interval apart,
      unless the earlier one raised. */
  lemma FetchesSpaced(r: Registry, passes: seq<Pass>, i: nat, j: nat)
    requires Rows(r) && Legal(r, passes) && i < j < |WholeLog(r, passes)|
    requires WholeLog(r, passes)[i].id == WholeLog(r, passes)[j].id && WholeLog(r, passes)[i].id in r.subs
    requires WholeLog(r, passes)[i].status != Raised
    ensures WholeLog(r, passes)[j].at - WholeLog(r, passes)[i].at >= r.subs[WholeLog(r, passes)[i].id].interval
  {
    hide AfterAll, WholeLog, Legal, Spaced, Rows;
    assert Spaced(r, []) by {
      NothingFetched(r);
    }
    PassesKeepSpaced(r, [], passes);
    var log := WholeLog(r, passes);
    assert [] + log == log;
    SpacedApart(AfterAll(r, passes), log, i, j);
  }

  // ---------- what a fetch records ----------

  /** The site gives a content other than that of the last fetch, which the KB has no document of. */
  ghost predicate IsNew(r: Registry, id: SubId, f: Fetch)
    requires id in r.subs
  {
    && f.outcome.Content? && r.subs[id].lastHash != Some(f.outcome.text)
    && (r.subs[id].kb, f.outcome.text) !in r.docs
  }

  /** The whole effect of a fetch: when it raises and what it then leaves; what the status says; a new
      content, and nothing else, is queued, together with its document; and what the row records. */
  lemma FetchRecords(r: Registry, id: SubId, f: Fetch)
    requires id in r.subs
    ensures var (r', status) := FetchSubscription(r, id, f);
            var sub, isNew := r.subs[id], IsNew(r, id, f);
            var it := (sub.kb, if f.outcome.Content? then f.outcome.text else "");
            && (status == Raised <==>
                  f.fault in {FetchRaises, MarkRaises} || (isNew && f.fault in {DocRaises, JobRaises}))
            && (status == Raised ==> r'.subs == r.subs)
            && (status == SsrfBlocked ==> f.outcome.Blocked?) && (status == Failed ==> f.outcome.FetchError?)
            && (status == Unchanged ==> f.outcome.Content? && sub.lastHash == Some(f.outcome.text))
            && (status == Ingested ==> f.outcome.Content? && sub.lastHash != Some(f.outcome.text))
            && (status != Missing)
            && r'.queued == r.queued + (if isNew && f.fault in {NoFault, MarkRaises} then [it] else [])
            && r'.docs == r.docs + (if isNew && f.fault in {NoFault, MarkRaises, JobRaises} then {it} else {})
            && id in r'.subs && (status != Raised ==> Recorded(sub, r'.subs[id], f))
  {
  }

  /** The row keeps its settings, moves its cursor, and holds the error or the content of the fetch. */
  ghost predicate Recorded(before: Sub, after: Sub, f: Fetch) {
    && after.kb == before.kb && after.url == before.url && after.interval == before.interval
    && after.enabled == before.enabled && after.lastFetched == Some(f.now)
    && after.next == Some(f.now + before.interval)
    && (f.outcome.Content? ==> after.lastHash == Some(f.outcome.text) && after.lastError == "")
    && (!f.outcome.Content? ==> after.lastHash == before.lastHash && after.lastError == f.outcome.detail)
  }

  /** What a subscription last saw, its KB has a document of: skipping an unchanged content skips
      nothing that is missing. */
  ghost predicate Remembered(r: Registry) {
    forall id :: id in r.subs && r.subs[id].lastHash.Some? ==> (r.subs[id].kb, r.subs[id].lastHash.value) in r.docs
  }

  lemma FetchKeepsRemembered(r: Registry, id: SubId, f: Fetch)
    requires Remembered(r)
    ensures Remembered(FetchSubscription(r, id, f).0)
  {
    hide FetchSubscription;
    FetchCursor(r, id, f);
    if id in r.subs {
      FetchRecords(r, id, f);
      var r' := FetchSubscription(r, id, f).0;
      forall x | x in r'.subs && r'.subs[x].lastHash.Some?
        ensures (r'.subs[x].kb, r'.subs[x].lastHash.value) in r'.docs
      {
        assert x in r.subs && r.docs <= r'.docs;
        if r.subs[x].lastHash.Some? {
          assert (r.subs[x].kb, r.subs[x].lastHash.value) in r.docs;
        }
        if x == id && r'.subs != r.subs && f.outcome.Content? {
          assert IsNew(r, id, f) ==> f.fault.NoFault?;
          assert (r.subs[id].kb, f.outcome.text) in r'.docs;
        }
      }
    }
  }

  lemma {:induction false} PassKeepsRemembered(r: Registry, due: seq<SubId>, fetches: seq<Fetch>, n: nat)
    requires n <= |due| == |fetches| && Remembered(r)
    ensures Remembered(Crawled(r, due, fetches, n).0)
    decreases n
  {
    hide FetchSubscription, Remembered;
    if n > 0 {
      PassKeepsRemembered(r, due, fetches, n - 1);
      FetchKeepsRemembered(Crawled(r, due, fetches, n - 1).0, due[n - 1], fetches[n - 1]);
    }
  }

  lemma {:induction false} PassesKeepRemembered(r: Registry, passes: seq<Pass>)
    requires Legal(r, passes) && Remembered(r)
    ensures Remembered(AfterAll(r, passes))
    decreases |passes|
  {
    hide Crawled, Due, Remembered;
    if passes != [] {
      PassKeepsRemembered(r, Due(r, passes[0].listedAt), passes[0].fetches, |passes[0].fetches|);
      PassesKeepRemembered(AfterPass(r, passes[0]), passes[1..]);
    }
  }

  // ---------- what is queued ----------

  /** Every content is queued at most once, and only with a document. */
  ghost predicate QueuedOnce(r: Registry) {
    NoDuplicates(r.queued) && forall x :: x in r.queued ==> x in r.docs
  }

  /** Contents with a document that no crawl has queued: those that came in another way, and those
      that a crawl has lost. */
  ghost function NeverQueued(r: Registry): set<(Kb, string)> {
    set x | x in r.docs && x !in r.queued
  }

  /** A fetch adds to the contents that are never queued if and only if creating or queueing the job
      raises after the document was committed. From then on the content counts as present: the next
      fetch of it that meets no fault reports it as ingested, and queues nothing. */
  lemma FetchLoses(r: Registry, id: SubId, f: Fetch)
    requires QueuedOnce(r)
    ensures var (r', status) := FetchSubscription(r, id, f);
            && QueuedOnce(r') && r.queued <= r'.queued
            && NeverQueued(r') == NeverQueued(r)
                                  + (if status == Raised && f.fault.JobRaises? && id in r.subs && f.outcome.Content?
                                     then {(r.subs[id].kb, f.outcome.text)} else {})
            && (id in r.subs && f.outcome.Content? && Some(f.outcome.text) != r.subs[id].lastHash && f.fault.NoFault?
                && (r.subs[id].kb, f.outcome.text) in NeverQueued(r)
                ==> status == Ingested && r'.queued == r.queued)
  {
    var r' := FetchSubscription(r, id, f).0;
    assert forall x :: x in r.queued ==> x in r'.queued;
  }

  ghost predicate NoJobRaises(fetches: seq<Fetch>) {
    forall f :: f in fetches ==> !f.fault.JobRaises?
  }

  lemma {:induction false} PassLoses(r: Registry, due: seq<SubId>, fetches: seq<Fetch>, n: nat)
    requires n <= |due| == |fetches| && QueuedOnce(r)
    ensures var r' := Crawled(r, due, fetches, n).0;
            && QueuedOnce(r') && NeverQueued(r) <= NeverQueued(r')
            && (NoJobRaises(fetches) ==> NeverQueued(r') == NeverQueued(r))
    decreases n
  {
    hide FetchSubscription, QueuedOnce, NeverQueued;
    if n > 0 {
      PassLoses(r, due, fetches, n - 1);
      var a := Crawled(r, due, fetches, n - 1).0;
      FetchLoses(a, due[n - 1], fetches[n - 1]);
      assert fetches[n - 1] in fetches;
    }
  }

  /** A content that was not queued when it got its document stays so over any passes, and none is
      added while no job raises. */
  lemma {:induction false} LostIsForever(r: Registry, passes: seq<Pass>)
    requires Legal(r, passes) && QueuedOnce(r)
    ensures QueuedOnce(AfterAll(r, passes)) && NeverQueued(r) <= NeverQueued(AfterAll(r, passes))
    ensures (forall pass :: pass in passes ==> NoJobRaises(pass.fetches)) ==>
              NeverQueued(AfterAll(r, passes)) == NeverQueued(r)
    decreases |passes|
  {
    hide Crawled, Due, QueuedOnce, NeverQueued;
    if passes != [] {
      PassLoses(r, Due(r, passes[0].listedAt), passes[0].fetches, |passes[0].fetches|);
      LostIsForever(AfterPass(r, passes[0]), passes[1..]);
      assert passes[0] in passes;
    }
  }

  lemma {:induction false} RaisedStays(r: Registry, due: seq<SubId>, fetches: seq<Fetch>, n: nat, m: nat)
    requires n <= m <= |due| == |fetches| && Raised in Crawled(r, due, fetches, n).1
    ensures Crawled(r, due, fetches, m) == Crawled(r, due, fetches, n)
    decreases m
  {
    if n < m {
      RaisedStays(r, due, fetches, n, m - 1);
    }
  }
}
