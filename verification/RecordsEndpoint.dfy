/** `GET /records` (routers/records.py): one page of each requested kind, merged by `ts`. */
module RecordsEndpoint {
  import opened Wrappers
  import opened RedisKeys
  import opened Streams
  import opened RedisStore
  import opened Records
  import opened Queries
  import opened PageWalk
  import opened Filters

  datatype Kinds = Only(kind: Kind) | LogsAndMetrics

  predicate Wants(kinds: Kinds, kind: Kind) {
    kinds.LogsAndMetrics? || kinds.kind == kind
  }

  datatype Request = Request(kinds: Kinds, filters: Filters, start: nat, end: nat,
                             logCursor: Option<StreamId>, metricCursor: Option<StreamId>, limit: Option<int>)

  datatype PageSizes = PageSizes(default: int, max: int)

  datatype RecordsPage = RecordsPage(records: seq<Record>, nextLog: Option<StreamId>, nextMetric: Option<StreamId>)

  // `InvalidCount`: the Redis client refuses a count below one.
  datatype RecordsError = InvalidCount | EmptyPage

  // `min(limit or default, max)`; a limit of zero counts as none, a negative one is kept.
  function EffectiveLimit(limit: Option<int>, sizes: PageSizes): (effective: int)
    ensures effective <= sizes.max
    ensures 1 <= sizes.default && 1 <= sizes.max ==> (effective >= 1 <==> limit.None? || limit.value >= 0)
    ensures limit.Some? && limit.value != 0 ==>
              effective <= limit.value && (effective == limit.value || effective == sizes.max)
    ensures limit.None? || limit.value == 0 ==>
              effective <= sizes.default && (effective == sizes.default || effective == sizes.max)
  {
    var asked := if limit.Some? && limit.value != 0 then limit.value else sizes.default;
    if asked < sizes.max then asked else sizes.max
  }

  function KindPage(codec: Codec, kinds: Kinds, kind: Kind, s: Stream, start: nat, end: nat,
                    cursor: Option<StreamId>, limit: nat): Result<Page, FetchError>
  {
    if Wants(kinds, kind) then Fetch(codec, s, start, end, cursor, limit) else Success(Page([], None))
  }

  // The timeline of two pages: by `ts`, logs first where they tie, then filtered.
  function Timeline(f: Filters, logs: seq<Hit>, metrics: seq<Hit>): seq<Record> {
    ApplyFilters(f, SortByTs(RecordsOf(logs) + RecordsOf(metrics)))
  }

  function Merged(f: Filters, logPage: Result<Page, FetchError>, metricPage: Result<Page, FetchError>)
    : Result<RecordsPage, RecordsError>
  {
    if logPage.Failure? || metricPage.Failure? then Failure(EmptyPage)
    else Success(RecordsPage(Timeline(f, logPage.value.hits, metricPage.value.hits),
                             logPage.value.next, metricPage.value.next))
  }

  function Respond(codec: Codec, sizes: PageSizes, logs: Stream, metrics: Stream, req: Request)
    : Result<RecordsPage, RecordsError>
  {
    var limit := EffectiveLimit(req.limit, sizes);
    if limit < 1 then Failure(InvalidCount)
    else Merged(req.filters,
                KindPage(codec, req.kinds, LOG, logs, req.start, req.end, req.logCursor, limit),
                KindPage(codec, req.kinds, METRIC, metrics, req.start, req.end, req.metricCursor, limit))
  }

  // The body of the endpoint, after the access check.
  method GetRecords(codec: Codec, redis: Redis, sizes: PageSizes, dockerHost: string, req: Request)
    returns (response: Result<RecordsPage, RecordsError>)
    ensures response == Respond(codec, sizes, StreamAt(redis.streams, StreamKey(dockerHost, LOG)),
                                StreamAt(redis.streams, StreamKey(dockerHost, METRIC)), req)
  {
    var limit := EffectiveLimit(req.limit, sizes);
    if limit < 1 {
      return Failure(InvalidCount);
    }
    var allRecords: seq<Record> := [];
    var nextLog, nextMetric := None, None;
    ghost var logHits, metricHits: seq<Hit> := [], [];
    ghost var logs := StreamAt(redis.streams, StreamKey(dockerHost, LOG));
    ghost var metrics := StreamAt(redis.streams, StreamKey(dockerHost, METRIC));
    if Wants(req.kinds, LOG) {
      var page := FetchKindPage(codec, redis, dockerHost, LOG, req.start, req.end, req.logCursor, limit);
      if page.Failure? {
        return Failure(EmptyPage);
      }
      allRecords, nextLog := allRecords + RecordsOf(page.value.hits), page.value.next;
      logHits := page.value.hits;
    }
    assert allRecords == RecordsOf(logHits);
    assert KindPage(codec, req.kinds, LOG, logs, req.start, req.end, req.logCursor, limit)
      == Success(Page(logHits, nextLog));
    if Wants(req.kinds, METRIC) {
      var page := FetchKindPage(codec, redis, dockerHost, METRIC, req.start, req.end, req.metricCursor, limit);
      if page.Failure? {
        return Failure(EmptyPage);
      }
      allRecords, nextMetric := allRecords + RecordsOf(page.value.hits), page.value.next;
      metricHits := page.value.hits;
    }
    assert allRecords == RecordsOf(logHits) + RecordsOf(metricHits);
    assert KindPage(codec, req.kinds, METRIC, metrics, req.start, req.end, req.metricCursor, limit)
        == Success(Page(metricHits, nextMetric));
    allRecords := SortByTs(allRecords);
    response := Success(RecordsPage(ApplyFilters(req.filters, allRecords), nextLog, nextMetric));
  }

  /** Which requests fail: with an effective limit below one the Redis client refuses, and
      otherwise those for a kind whose next full page holds no record at all. */
  lemma RespondFails(codec: Codec, sizes: PageSizes, logs: Stream, metrics: Stream, req: Request)
    requires Valid(logs) && Valid(metrics)
    ensures var limit := EffectiveLimit(req.limit, sizes);
            var response := Respond(codec, sizes, logs, metrics, req);
            && (response == Failure(InvalidCount) <==> limit < 1)
            && (response == Failure(EmptyPage) <==>
                  limit >= 1
                  && ((Wants(req.kinds, LOG) && HoleAt(codec, Ahead(logs, req.start, req.end, req.logCursor), limit, 0))
                      || (Wants(req.kinds, METRIC)
                          && HoleAt(codec, Ahead(metrics, req.start, req.end, req.metricCursor), limit, 0))))
  {
    var limit := EffectiveLimit(req.limit, sizes);
    if limit >= 1 {
      FetchFails(codec, logs, req.start, req.end, req.logCursor, limit);
      FetchFails(codec, metrics, req.start, req.end, req.metricCursor, limit);
    }
  }

  lemma FetchFails(codec: Codec, s: Stream, start: nat, end: nat, cursor: Option<StreamId>, limit: nat)
    requires Valid(s) && limit >= 1
    ensures Fetch(codec, s, start, end, cursor, limit).Failure?
            <==> HoleAt(codec, Ahead(s, start, end, cursor), limit, 0)
  {
    var ahead := Ahead(s, start, end, cursor);
    FetchMeaning(codec, s, start, end, cursor, limit);
    if |ahead| >= limit {
      ProgressMeaning(codec, ahead[..limit]);
    }
  }

  /** A response is sorted by `ts`, a permutation of the matching records of both pages, and
      where several share an instant, logs come first and each kind keeps its stream order. */
  lemma TimelineMeaning(f: Filters, logs: seq<Hit>, metrics: seq<Hit>)
    ensures var a, b := Matching(f, RecordsOf(logs)), Matching(f, RecordsOf(metrics));
            var timeline := Timeline(f, logs, metrics);
            && SortedByTs(timeline)
            && multiset(timeline) == multiset(a) + multiset(b)
            && (forall ts :: AtTs(ts, timeline) == AtTs(ts, a) + AtTs(ts, b))
  {
    var all := RecordsOf(logs) + RecordsOf(metrics);
    var a, b := Matching(f, RecordsOf(logs)), Matching(f, RecordsOf(metrics));
    ApplyFiltersMeaning(f, SortByTs(all));
    FilterCommutesWithSort(f, all);
    FilterConcat(Meets(f), RecordsOf(logs), RecordsOf(metrics));
    SortMeaning(a + b);
    forall ts
      ensures AtTs(ts, SortByTs(a + b)) == AtTs(ts, a) + AtTs(ts, b)
    {
      SortStable(a + b, ts);
      FilterConcat(Instant(ts), a, b);
    }
  }

  lemma HitWithRecord(hits: seq<Hit>, r: Record) returns (h: Hit)
    requires r in RecordsOf(hits)
    ensures h in hits && h.record == r
  {
    var i :| 0 <= i < |hits| && RecordsOf(hits)[i] == r;
    h := hits[i];
  }

  // A response is made of records of the two pages.
  lemma TimelineMembers(f: Filters, logs: seq<Hit>, metrics: seq<Hit>, r: Record)
    requires r in Timeline(f, logs, metrics)
    ensures r in RecordsOf(logs) || r in RecordsOf(metrics)
  {
    var all := RecordsOf(logs) + RecordsOf(metrics);
    ApplyFiltersMeaning(f, SortByTs(all));
    FilterMembers(Meets(f), SortByTs(all));
    SortMeaning(all);
    assert r in multiset(SortByTs(all));
    assert r in all;
  }

  // ---------- Walking both kinds ----------

  // How far a client is with one kind: the cursor to send next, or nothing left to ask.
  datatype Position = At(cursor: Option<StreamId>) | Done

  function Onward(next: Option<StreamId>): Position {
    if next.Some? then At(next) else Done
  }

  function CursorOf(p: Position): Option<StreamId> {
    if p.At? then p.cursor else None
  }

  // The kinds still to be asked for, when at least one is.
  function KindsLeft(log: Position, metric: Position): Kinds {
    if metric.Done? then Only(LOG) else if log.Done? then Only(METRIC) else LogsAndMetrics
  }

  function Left(s: Stream, start: nat, end: nat, p: Position): nat {
    if p.Done? then 0 else 1 + |Ahead(s, start, end, p.cursor)|
  }

  // What a client still has to get of one kind, and whether it will hit a hole on the way.
  function RecordsAhead(codec: Codec, s: Stream, start: nat, end: nat, p: Position): seq<Record> {
    if p.Done? then [] else RecordsOf(Hits(codec, Ahead(s, start, end, p.cursor)))
  }

  ghost predicate HoleAhead(codec: Codec, s: Stream, start: nat, end: nat, p: Position, limit: nat) {
    p.At? && Hole(codec, Ahead(s, start, end, p.cursor), limit)
  }

  function PageAt(codec: Codec, s: Stream, start: nat, end: nat, p: Position, limit: nat): Result<Page, FetchError> {
    if p.At? then Fetch(codec, s, start, end, p.cursor, limit) else Success(Page([], None))
  }

  // Past a decodable entry of the first page.
  lemma AheadSplits(codec: Codec, ahead: seq<Entry>, limit: nat, n: nat)
    requires 1 <= n <= limit <= |ahead| && Decodes(codec, ahead[n - 1])
    ensures RecordsOf(Hits(codec, ahead)) == RecordsOf(Hits(codec, ahead[..n])) + RecordsOf(Hits(codec, ahead[n..]))
    ensures Hole(codec, ahead, limit) <==> Hole(codec, ahead[n..], limit)
  {
    HoleAfterPage(codec, ahead, limit, n);
    HitsAppend(codec, ahead[..n], ahead[n..]);
    assert ahead == ahead[..n] + ahead[n..];
  }

  // One fetch takes a prefix of what is ahead and leaves the rest, or fails at a hole.
  lemma PageGetsOn(codec: Codec, s: Stream, start: nat, end: nat, p: Position, limit: nat)
    requires Valid(s) && limit >= 1
    ensures match PageAt(codec, s, start, end, p, limit)
            case Failure(_) => HoleAhead(codec, s, start, end, p, limit)
            case Success(page) =>
              var on := Onward(page.next);
              && (p.At? ==> Left(s, start, end, on) < Left(s, start, end, p))
              && (p.Done? ==> on.Done?)
              && RecordsAhead(codec, s, start, end, p) == RecordsOf(page.hits) + RecordsAhead(codec, s, start, end, on)
              && (HoleAhead(codec, s, start, end, p, limit) <==> HoleAhead(codec, s, start, end, on, limit))
  {
    if p.At? {
      var ahead := Ahead(s, start, end, p.cursor);
      FetchMeaning(codec, s, start, end, p.cursor, limit);
      match Fetch(codec, s, start, end, p.cursor, limit) {
        case Failure(_) => assert HoleAt(codec, ahead, limit, 0);
        case Success(Page(hits, None)) =>
        case Success(Page(hits, Some(next))) =>
          ProgressMeaning(codec, ahead[..limit]);
          AheadSplits(codec, ahead, limit, Progress(codec, ahead[..limit]));
      }
    }
  }

  function RequestAt(f: Filters, start: nat, end: nat, asked: Option<int>, log: Position, metric: Position): Request
    requires log.At? || metric.At?
  {
    Request(KindsLeft(log, metric), f, start, end, CursorOf(log), CursorOf(metric), asked)
  }

  // The response to a narrowed request, in terms of the two positions.
  lemma RoundMeaning(codec: Codec, sizes: PageSizes, logs: Stream, metrics: Stream, f: Filters, start: nat, end: nat,
                     asked: Option<int>, log: Position, metric: Position)
    requires EffectiveLimit(asked, sizes) >= 1 && (log.At? || metric.At?)
    ensures Respond(codec, sizes, logs, metrics, RequestAt(f, start, end, asked, log, metric))
            == Merged(f, PageAt(codec, logs, start, end, log, EffectiveLimit(asked, sizes)),
                      PageAt(codec, metrics, start, end, metric, EffectiveLimit(asked, sizes)))
  {
    var limit := EffectiveLimit(asked, sizes);
    var kinds := KindsLeft(log, metric);
    assert KindPage(codec, kinds, LOG, logs, start, end, CursorOf(log), limit)
      == PageAt(codec, logs, start, end, log, limit);
    assert KindPage(codec, kinds, METRIC, metrics, start, end, CursorOf(metric), limit)
        == PageAt(codec, metrics, start, end, metric, limit);
  }

  // A client that asks for the kinds whose cursor is not null yet, until none is left: the
  // responses it gets, one after the other.
  function WalkBoth(codec: Codec, sizes: PageSizes, logs: Stream, metrics: Stream, f: Filters, start: nat, end: nat,
                    asked: Option<int>, log: Position, metric: Position): Result<seq<Record>, RecordsError>
    requires Valid(logs) && Valid(metrics) && EffectiveLimit(asked, sizes) >= 1
    decreases Left(logs, start, end, log) + Left(metrics, start, end, metric)
  {
    if log.Done? && metric.Done? then Success([])
    else
      var limit := EffectiveLimit(asked, sizes);
      RoundMeaning(codec, sizes, logs, metrics, f, start, end, asked, log, metric);
      PageGetsOn(codec, logs, start, end, log, limit);
      PageGetsOn(codec, metrics, start, end, metric, limit);
      match Respond(codec, sizes, logs, metrics, RequestAt(f, start, end, asked, log, metric))
      case Failure(error) => Failure(error)
      case Success(page) =>
        match WalkBoth(codec, sizes, logs, metrics, f, start, end, asked, Onward(page.nextLog), Onward(page.nextMetric))
        case Failure(error) => Failure(error)
        case Success(rest) => Success(page.records + rest)
  }

  // The records of one response and those still ahead make up what was ahead before.
  lemma RoundAccounts(f: Filters, logHits: seq<Hit>, logRest: seq<Record>, metricHits: seq<Hit>,
                      metricRest: seq<Record>)
    ensures multiset(Timeline(f, logHits, metricHits))
            + multiset(Matching(f, logRest)) + multiset(Matching(f, metricRest))
            == multiset(Matching(f, RecordsOf(logHits) + logRest))
               + multiset(Matching(f, RecordsOf(metricHits) + metricRest))
  {
    TimelineMeaning(f, logHits, metricHits);
    FilterConcat(Meets(f), RecordsOf(logHits), logRest);
    FilterConcat(Meets(f), RecordsOf(metricHits), metricRest);
  }

  lemma RoundAddsUp(f: Filters, logHits: seq<Hit>, logRest: seq<Record>, metricHits: seq<Hit>,
                    metricRest: seq<Record>, rest: seq<Record>)
    requires multiset(rest) == multiset(Matching(f, logRest)) + multiset(Matching(f, metricRest))
    ensures multiset(Timeline(f, logHits, metricHits) + rest)
            == multiset(Matching(f, RecordsOf(logHits) + logRest))
               + multiset(Matching(f, RecordsOf(metricHits) + metricRest))
  {
    RoundAccounts(f, logHits, logRest, metricHits, metricRest);
  }

  /** Over unchanged streams such a walk succeeds exactly if neither kind has a page's worth of
      undecodable entries in a row ahead, and then its responses together hold every matching
      record of both kinds exactly once. */
  lemma {:induction false} WalkBothIsExact(codec: Codec, sizes: PageSizes, logs: Stream, metrics: Stream, f: Filters,
                                           start: nat, end: nat, asked: Option<int>, log: Position, metric: Position)
    requires Valid(logs) && Valid(metrics) && EffectiveLimit(asked, sizes) >= 1
    ensures var limit := EffectiveLimit(asked, sizes);
            var walk := WalkBoth(codec, sizes, logs, metrics, f, start, end, asked, log, metric);
            && (walk.Success? <==> !HoleAhead(codec, logs, start, end, log, limit)
                                   && !HoleAhead(codec, metrics, start, end, metric, limit))
            && (walk.Success? ==>
                  multiset(walk.value) == multiset(Matching(f, RecordsAhead(codec, logs, start, end, log)))
                                          + multiset(Matching(f, RecordsAhead(codec, metrics, start, end, metric))))
    decreases Left(logs, start, end, log) + Left(metrics, start, end, metric)
  {
    var limit := EffectiveLimit(asked, sizes);
    if log.At? || metric.At? {
      PageGetsOn(codec, logs, start, end, log, limit);
      PageGetsOn(codec, metrics, start, end, metric, limit);
      WalkBothRound(codec, sizes, logs, metrics, f, start, end, asked, log, metric);
      var logPage := PageAt(codec, logs, start, end, log, limit);
      var metricPage := PageAt(codec, metrics, start, end, metric, limit);
      if logPage.Success? && metricPage.Success? {
        var l, m := Onward(logPage.value.next), Onward(metricPage.value.next);
        WalkBothIsExact(codec, sizes, logs, metrics, f, start, end, asked, l, m);
        var rest := WalkBoth(codec, sizes, logs, metrics, f, start, end, asked, l, m);
        if rest.Success? {
          RoundAddsUp(f, logPage.value.hits, RecordsAhead(codec, logs, start, end, l),
                      metricPage.value.hits, RecordsAhead(codec, metrics, start, end, m), rest.value);
        }
      }
    }
  }

  // One round of the walk: a response, and the walk that goes on from it.
  lemma WalkBothRound(codec: Codec, sizes: PageSizes, logs: Stream, metrics: Stream, f: Filters,
                      start: nat, end: nat, asked: Option<int>, log: Position, metric: Position)
    requires Valid(logs) && Valid(metrics) && EffectiveLimit(asked, sizes) >= 1 && (log.At? || metric.At?)
    ensures var limit := EffectiveLimit(asked, sizes);
            var walk := WalkBoth(codec, sizes, logs, metrics, f, start, end, asked, log, metric);
            var logPage := PageAt(codec, logs, start, end, log, limit);
            var metricPage := PageAt(codec, metrics, start, end, metric, limit);
            if logPage.Failure? || metricPage.Failure? then walk.Failure?
            else
              var rest := WalkBoth(codec, sizes, logs, metrics, f, start, end, asked,
                                   Onward(logPage.value.next), Onward(metricPage.value.next));
              walk.Success? == rest.Success?
              && (rest.Success? ==> walk.value == Timeline(f, logPage.value.hits, metricPage.value.hits) + rest.value)
  {
    RoundMeaning(codec, sizes, logs, metrics, f, start, end, asked, log, metric);
  }
}
