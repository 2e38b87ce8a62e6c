/** The narrowing walk over both kinds while entries are added and trimmed between the fetches. */
module ChangingWalk {
  import opened Wrappers
  import opened RedisKeys
  import opened Streams
  import opened Records
  import opened Queries
  import opened PageWalk
  import opened Filters
  import opened RecordsEndpoint

  // What one request meets: each stream at the moment of its own fetch.
  datatype Met = Met(logs: Stream, metrics: Stream)

  function LogStreams(met: seq<Met>): seq<Stream> {
    seq(|met|, i requires 0 <= i < |met| => met[i].logs)
  }

  function MetricStreams(met: seq<Met>): seq<Stream> {
    seq(|met|, i requires 0 <= i < |met| => met[i].metrics)
  }

  lemma StreamsOfRest(met: seq<Met>)
    requires met != []
    ensures LogStreams(met)[1..] == LogStreams(met[1..]) && LogStreams(met)[0] == met[0].logs
    ensures MetricStreams(met)[1..] == MetricStreams(met[1..]) && MetricStreams(met)[0] == met[0].metrics
  {
  }

  // The walk whose i-th request meets `met[i]`; None unless the last of them ends it.
  function WalkBothOver(codec: Codec, sizes: PageSizes, met: seq<Met>, f: Filters, start: nat, end: nat,
                        asked: Option<int>, log: Position, metric: Position): Option<seq<Record>>
  {
    if log.Done? && metric.Done? then if met == [] then Some([]) else None
    else if met == [] then None
    else
      match Respond(codec, sizes, met[0].logs, met[0].metrics, RequestAt(f, start, end, asked, log, metric))
      case Failure(_) => None
      case Success(page) =>
        match WalkBothOver(codec, sizes, met[1..], f, start, end, asked, Onward(page.nextLog), Onward(page.nextMetric))
        case None => None
        case Some(rest) => Some(page.records + rest)
  }

  // The walk of one kind within it: from `p` on, over as many of these streams as it takes.
  function KindOver(codec: Codec, streams: seq<Stream>, start: nat, end: nat, p: Position, limit: nat)
    : Option<seq<Hit>>
  {
    if p.Done? then Some([])
    else if streams == [] then None
    else
      match Fetch(codec, streams[0], start, end, p.cursor, limit)
      case Failure(_) => None
      case Success(page) =>
        match KindOver(codec, streams[1..], start, end, Onward(page.next), limit)
        case None => None
        case Some(rest) => Some(page.hits + rest)
  }

  // Once a kind is done, the rest of the requests leave it alone.
  lemma {:induction false} KindIsWalk(codec: Codec, streams: seq<Stream>, start: nat, end: nat,
                                      cursor: Option<StreamId>, limit: nat)
    returns (k: nat)
    requires KindOver(codec, streams, start, end, At(cursor), limit).Some?
    ensures 0 < k <= |streams|
    ensures WalkOver(codec, streams[..k], start, end, cursor, limit)
            == KindOver(codec, streams, start, end, At(cursor), limit)
  {
    var page := Fetch(codec, streams[0], start, end, cursor, limit).value;
    if page.next.None? {
      k := 1;
      assert streams[..1][0] == streams[0] && page.hits + [] == page.hits;
    } else {
      var j := KindIsWalk(codec, streams[1..], start, end, page.next, limit);
      k := j + 1;
      assert streams[..k][1..] == streams[1..][..j] && streams[..k][0] == streams[0];
    }
  }

  // One request of the walk: a page of each kind that is left, and the walk that goes on from it.
  lemma RequestGetsOn(codec: Codec, sizes: PageSizes, met: seq<Met>, f: Filters, start: nat, end: nat,
                      asked: Option<int>, log: Position, metric: Position, received: seq<Record>)
    returns (logPage: Page, metricPage: Page, rest: seq<Record>)
    requires EffectiveLimit(asked, sizes) >= 1 && (log.At? || metric.At?)
    requires WalkBothOver(codec, sizes, met, f, start, end, asked, log, metric) == Some(received)
    ensures met != []
    ensures PageAt(codec, met[0].logs, start, end, log, EffectiveLimit(asked, sizes)) == Success(logPage)
    ensures PageAt(codec, met[0].metrics, start, end, metric, EffectiveLimit(asked, sizes)) == Success(metricPage)
    ensures WalkBothOver(codec, sizes, met[1..], f, start, end, asked, Onward(logPage.next), Onward(metricPage.next))
            == Some(rest)
    ensures received == Timeline(f, logPage.hits, metricPage.hits) + rest
  {
    RoundMeaning(codec, sizes, met[0].logs, met[0].metrics, f, start, end, asked, log, metric);
    logPage := PageAt(codec, met[0].logs, start, end, log, EffectiveLimit(asked, sizes)).value;
    metricPage := PageAt(codec, met[0].metrics, start, end, metric, EffectiveLimit(asked, sizes)).value;
    rest := WalkBothOver(codec, sizes, met[1..], f, start, end, asked,
                         Onward(logPage.next), Onward(metricPage.next)).value;
  }

  // One more page of one kind, before the rest of its walk.
  lemma KindGetsOn(codec: Codec, streams: seq<Stream>, start: nat, end: nat, p: Position, limit: nat, page: Page,
                   rest: seq<Hit>)
    requires streams != [] && PageAt(codec, streams[0], start, end, p, limit) == Success(page)
    requires KindOver(codec, streams[1..], start, end, Onward(page.next), limit) == Some(rest)
    ensures KindOver(codec, streams, start, end, p, limit) == Some(page.hits + rest)
  {
    if p.Done? {
      assert page.hits + rest == [];
    }
  }

  // The matching records of some hits.
  function MatchingHits(f: Filters, hits: seq<Hit>): multiset<Record> {
    multiset(Matching(f, RecordsOf(hits)))
  }

  // What is received of each kind is what its own walk returns, filtered.
  lemma {:induction false} ReceivedByKind(codec: Codec, sizes: PageSizes, met: seq<Met>, f: Filters, start: nat,
                                          end: nat, asked: Option<int>, log: Position, metric: Position,
                                          received: seq<Record>)
    returns (logHits: seq<Hit>, metricHits: seq<Hit>)
    requires EffectiveLimit(asked, sizes) >= 1
    requires WalkBothOver(codec, sizes, met, f, start, end, asked, log, metric) == Some(received)
    ensures KindOver(codec, LogStreams(met), start, end, log, EffectiveLimit(asked, sizes)) == Some(logHits)
    ensures KindOver(codec, MetricStreams(met), start, end, metric, EffectiveLimit(asked, sizes)) == Some(metricHits)
    ensures multiset(received) == MatchingHits(f, logHits) + MatchingHits(f, metricHits)
    decreases |met|
  {
    if log.Done? && metric.Done? {
      logHits, metricHits := [], [];
      assert RecordsOf([]) == [] && Matching(f, []) == [];
    } else {
      var limit := EffectiveLimit(asked, sizes);
      var logPage, metricPage, rest :=
        RequestGetsOn(codec, sizes, met, f, start, end, asked, log, metric, received);
      var logRest, metricRest :=
        ReceivedByKind(codec, sizes, met[1..], f, start, end, asked, Onward(logPage.next),
                       Onward(metricPage.next), rest);
      StreamsOfRest(met);
      KindGetsOn(codec, LogStreams(met), start, end, log, limit, logPage, logRest);
      KindGetsOn(codec, MetricStreams(met), start, end, metric, limit, metricPage, metricRest);
      logHits, metricHits := logPage.hits + logRest, metricPage.hits + metricRest;
      ReceivedAddsUp(f, logPage.hits, logRest, metricPage.hits, metricRest, rest);
    }
  }

  lemma ReceivedAddsUp(f: Filters, logHits: seq<Hit>, logRest: seq<Hit>, metricHits: seq<Hit>, metricRest: seq<Hit>,
                       rest: seq<Record>)
    requires multiset(rest) == MatchingHits(f, logRest) + MatchingHits(f, metricRest)
    ensures multiset(Timeline(f, logHits, metricHits) + rest)
            == MatchingHits(f, logHits + logRest) + MatchingHits(f, metricHits + metricRest)
  {
    MatchesOfBoth(f, logHits, logRest);
    MatchesOfBoth(f, metricHits, metricRest);
    TimelineMeaning(f, logHits, metricHits);
  }

  lemma MatchesOfBoth(f: Filters, a: seq<Hit>, b: seq<Hit>)
    ensures MatchingHits(f, a + b) == MatchingHits(f, a) + MatchingHits(f, b)
  {
    assert RecordsOf(a + b) == RecordsOf(a) + RecordsOf(b);
    FilterConcat(Meets(f), RecordsOf(a), RecordsOf(b));
  }

  // The hits of one kind: ascending, from what was met, and complete for what was there from the
  // first request to the last.
  ghost predicate Faithful(codec: Codec, streams: seq<Stream>, start: nat, end: nat, hits: seq<Hit>)
    requires streams != []
  {
    && AscendingHits(hits)
    && (forall h :: h in hits ==> Seen(codec, streams, start, end, h))
    && (forall e :: e in streams[0].entries && e in streams[|streams| - 1].entries
                    && start <= e.id.ms <= end && Decodes(codec, e)
          ==> HitOf(codec, e) in hits)
  }

  lemma KindIsFaithful(codec: Codec, streams: seq<Stream>, start: nat, end: nat, limit: nat)
    requires limit >= 1 && Evolving(streams) && KindOver(codec, streams, start, end, At(None), limit).Some?
    ensures Faithful(codec, streams, start, end, KindOver(codec, streams, start, end, At(None), limit).value)
  {
    var k := KindIsWalk(codec, streams, start, end, None, limit);
    var hits := KindOver(codec, streams, start, end, At(None), limit).value;
    assert forall s :: s in streams[..k] ==> s in streams;
    WalkUnderChange(codec, streams[..k], start, end, limit);
    forall h | h in hits
      ensures Seen(codec, streams, start, end, h)
    {
      SeenLater(codec, streams, k, start, end, h);
    }
    ThereInBetween(streams, k - 1);
  }

  lemma SeenLater(codec: Codec, streams: seq<Stream>, k: nat, start: nat, end: nat, h: Hit)
    requires k <= |streams| && Seen(codec, streams[..k], start, end, h)
    ensures Seen(codec, streams, start, end, h)
  {
    var i, e :| 0 <= i < k && SeenIn(codec, streams[..k][i], start, end, h, e);
    assert SeenIn(codec, streams[i], start, end, h, e);
  }

  lemma ThereInBetween(streams: seq<Stream>, i: nat)
    requires Evolving(streams) && i < |streams|
    ensures forall e :: e in streams[0].entries && e in streams[|streams| - 1].entries ==> e in streams[i].entries
  {
    EvolvingFar(streams, 0, i);
    EvolvingFar(streams, i, |streams| - 1);
  }

  /** Walking both kinds under change: what a complete walk receives is the matching part of one
      list of hits for each kind. Each list ascends, so nothing comes twice; it stems from what
      the stream held at some request; and it has every decodable entry in range that was there
      from the first request to the last. */
  lemma WalkBothUnderChange(codec: Codec, sizes: PageSizes, met: seq<Met>, f: Filters, start: nat, end: nat,
                            asked: Option<int>, received: seq<Record>)
    returns (logHits: seq<Hit>, metricHits: seq<Hit>)
    requires EffectiveLimit(asked, sizes) >= 1 && Evolving(LogStreams(met)) && Evolving(MetricStreams(met))
    requires WalkBothOver(codec, sizes, met, f, start, end, asked, At(None), At(None)) == Some(received)
    ensures multiset(received) == MatchingHits(f, logHits) + MatchingHits(f, metricHits)
    ensures met != []
    ensures Faithful(codec, LogStreams(met), start, end, logHits)
    ensures Faithful(codec, MetricStreams(met), start, end, metricHits)
  {
    logHits, metricHits := ReceivedByKind(codec, sizes, met, f, start, end, asked, At(None), At(None), received);
    KindIsFaithful(codec, LogStreams(met), start, end, EffectiveLimit(asked, sizes));
    KindIsFaithful(codec, MetricStreams(met), start, end, EffectiveLimit(asked, sizes));
  }
}
