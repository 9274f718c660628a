/** core/ingest/crawl.py as a program over the registry: the subscription and document rows are
    updated step by step. */
module CrawlerObject {
  import opened Wrappers
  import opened Crawl

  class Crawler {
    const order: seq<SubId>
    var subs: map<SubId, Sub>
    var docs: set<(Kb, string)>
    var queued: seq<(Kb, string)>

    function State(): Registry
      reads this
    {
      Registry(order, subs, docs, queued)
    }

    constructor (r: Registry)
      ensures State() == r
    {
      order, subs, docs, queued := r.order, r.subs, r.docs, r.queued;
    }

    method MarkError(id: SubId, error: string, now: int, next: int)
      requires id in subs
      modifies this`subs
      ensures State() == Crawl.MarkError(old(State()), id, error, now, next)
    {
      subs := subs[id := subs[id].(lastError := error, lastFetched := Some(now), next := Some(next))];
    }

    method MarkFetched(id: SubId, hash: string, now: int, next: int)
      requires id in subs
      modifies this`subs
      ensures State() == Crawl.MarkFetched(old(State()), id, hash, now, next)
    {
      subs := subs[id := subs[id].(lastHash := Some(hash), lastFetched := Some(now), next := Some(next),
                                 lastError := "")];
    }

    method FetchSubscription(id: SubId, f: Fetch) returns (status: Status)
      modifies this
      ensures (State(), status) == Crawl.FetchSubscription(old(State()), id, f)
    {
      if id !in subs {
        return Missing;
      }
      if f.fault.FetchRaises? {
        return Raised;
      }
      var sub := subs[id];
      var next := f.now + sub.interval;
      if !f.outcome.Content? {
        if f.fault.MarkRaises? {
          return Raised;
        }
        MarkError(id, f.outcome.detail, f.now, next);
        return if f.outcome.Blocked? then SsrfBlocked else Failed;
      }
      var text := f.outcome.text;
      if Some(text) == sub.lastHash {
        status := Unchanged;
      } else {
        if (sub.kb, text) !in docs {
          if f.fault.DocRaises? {
            return Raised;
          }
          docs := docs + {(sub.kb, text)};
          if f.fault.JobRaises? {
            return Raised;
          }
          queued := queued + [(sub.kb, text)];
        }
        status := Ingested;
      }
      if f.fault.MarkRaises? {
        return Raised;
      }
      MarkFetched(id, text, f.now, next);
    }

    method CrawlDue(now: int, fetches: seq<Fetch>) returns (statuses: seq<Status>)
      requires |fetches| == |Due(State(), now)|
      modifies this
      ensures (State(), statuses) == Crawled(old(State()), Due(old(State()), now), fetches, |fetches|)
    {
      hide Crawl.FetchSubscription, Due;
      var due := Due(State(), now);
      statuses := [];
      for i := 0 to |due|
        invariant (State(), statuses) == Crawled(old(State()), due, fetches, i) && Raised !in statuses
      {
        var status := FetchSubscription(due[i], fetches[i]);
        statuses := statuses + [status];
        if status == Raised {
          RaisedStays(old(State()), due, fetches, i + 1, |due|);
          return;
        }
      }
    }
  }
}
