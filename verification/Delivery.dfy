/** From what was pushed to what a client of `GET /records` has received in the end. */
module Delivery {
  import opened Wrappers
  import opened RedisKeys
  import opened Streams
  import opened RedisStore
  import opened Records
  import opened PageWalk
  import opened Filters
  import opened LogServer
  import opened EndToEnd
  import opened RecordsEndpoint
  import opened Queries
  import opened ChangingWalk

  // What a walk from the start of a covering range has ahead: everything pushed for the stream.
  lemma AheadIsPushed(cfg: Config, s: Server, t: Target, start: nat, end: nat, limit: nat)
    requires Reached(cfg, s) && RoundTrips(cfg.codec, s.pushed) && limit >= 1
    requires s.faults == 0 && t !in s.lastTrim && s.hand == [] && s.ingest == []
    requires Covers(start, end, StreamOf(s, t).entries)
    ensures Valid(StreamOf(s, t))
    ensures RecordsAhead(cfg.codec, StreamOf(s, t), start, end, At(None)) == Routed(cfg.codec, s.pushed, t)
    ensures !HoleAhead(cfg.codec, StreamOf(s, t), start, end, At(None), limit)
  {
    var stream := StreamOf(s, t);
    EveryRecordArrives(cfg, s, t, start, end, limit);
    WalkIsComplete(cfg.codec, stream, start, end, None, limit);
  }

  /** A client that walks both kinds of a daemon, narrowing to the kinds whose cursor is not
      null, gets no error and exactly the pushed records of that daemon that meet its filters,
      each as often as it was pushed, whatever the batch and page sizes were. */
  lemma EverythingIsDelivered(cfg: Config, sizes: PageSizes, s: Server, dockerHost: string, f: Filters,
                              start: nat, end: nat, asked: Option<int>)
    requires Reached(cfg, s) && RoundTrips(cfg.codec, s.pushed) && EffectiveLimit(asked, sizes) >= 1
    requires s.faults == 0 && s.hand == [] && s.ingest == []
    requires forall kind :: Target(dockerHost, kind) !in s.lastTrim
                            && Covers(start, end, StreamOf(s, Target(dockerHost, kind)).entries)
    ensures Valid(StreamOf(s, Target(dockerHost, LOG))) && Valid(StreamOf(s, Target(dockerHost, METRIC)))
    ensures var walk := WalkBoth(cfg.codec, sizes,
                                 StreamOf(s, Target(dockerHost, LOG)), StreamOf(s, Target(dockerHost, METRIC)),
                                 f, start, end, asked, At(None), At(None));
            && walk.Success?
            && multiset(walk.value)
               == multiset(Matching(f, Routed(cfg.codec, s.pushed, Target(dockerHost, LOG))))
                  + multiset(Matching(f, Routed(cfg.codec, s.pushed, Target(dockerHost, METRIC))))
  {
    var log, metric := Target(dockerHost, LOG), Target(dockerHost, METRIC);
    AheadIsPushed(cfg, s, log, start, end, EffectiveLimit(asked, sizes));
    AheadIsPushed(cfg, s, metric, start, end, EffectiveLimit(asked, sizes));
    WalkBothIsExact(cfg.codec, sizes, StreamOf(s, log), StreamOf(s, metric), f, start, end, asked, At(None), At(None));
  }

  // The streams of one daemon that the requests of a walk meet: each kind is fetched at a moment
  // of its own.
  function MetAt(logStates: seq<Server>, metricStates: seq<Server>, dockerHost: string): seq<Met>
    requires |logStates| == |metricStates|
  {
    seq(|logStates|, i requires 0 <= i < |logStates| =>
      Met(StreamOf(logStates[i], Target(dockerHost, LOG)), StreamOf(metricStates[i], Target(dockerHost, METRIC))))
  }

  /** The walk over both kinds while items are consumed and sweeps run between its fetches: it
      receives the matching part of one list of hits for each kind, and each list ascends, stems
      from what was stored, and misses nothing decodable in range that stayed throughout. */
  lemma WalkBothWhileServing(cfg: Config, sizes: PageSizes, logStates: seq<Server>, metricStates: seq<Server>,
                             dockerHost: string, f: Filters, start: nat, end: nat, asked: Option<int>,
                             received: seq<Record>)
    returns (logHits: seq<Hit>, metricHits: seq<Hit>)
    requires |logStates| == |metricStates| && EndToEnd.Timeline(cfg, logStates) && EndToEnd.Timeline(cfg, metricStates)
    requires EffectiveLimit(asked, sizes) >= 1
    ensures WalkBothOver(cfg.codec, sizes, MetAt(logStates, metricStates, dockerHost), f, start, end, asked,
                         At(None), At(None)) == Some(received) ==>
              && multiset(received) == MatchingHits(f, logHits) + MatchingHits(f, metricHits)
              && logStates != []
              && Faithful(cfg.codec, StreamsAt(logStates, Target(dockerHost, LOG)), start, end, logHits)
              && Faithful(cfg.codec, StreamsAt(metricStates, Target(dockerHost, METRIC)), start, end, metricHits)
  {
    logHits, metricHits := [], [];
    var met := MetAt(logStates, metricStates, dockerHost);
    if WalkBothOver(cfg.codec, sizes, met, f, start, end, asked, At(None), At(None)) == Some(received) {
      assert LogStreams(met) == StreamsAt(logStates, Target(dockerHost, LOG));
      assert MetricStreams(met) == StreamsAt(metricStates, Target(dockerHost, METRIC));
      TimelineEvolves(cfg, logStates, Target(dockerHost, LOG));
      TimelineEvolves(cfg, metricStates, Target(dockerHost, METRIC));
      logHits, metricHits := WalkBothUnderChange(cfg.codec, sizes, met, f, start, end, asked, received);
    }
  }

  /** What a request is answered with: records of the daemon it names; logs only if it asks for logs
      only, and metrics only if it asks for metrics only. */
  lemma AnswersInKind(cfg: Config, sizes: PageSizes, s: Server, dockerHost: string, req: Request, r: Record)
    requires Reached(cfg, s) && RoundTrips(cfg.codec, s.pushed)
    ensures var response := Respond(cfg.codec, sizes, StreamAt(s.streams, "logsump:stream:" + dockerHost + ":log"),
                                    StreamAt(s.streams, "logsump:stream:" + dockerHost + ":metric"), req);
            response.Success? && r in response.value.records ==>
              && r.dockerHost == dockerHost
              && (req.kinds == Only(LOG) ==> r.LogRecord?)
              && (req.kinds == Only(METRIC) ==> r.MetricRecord?)
  {
    KeyTexts(dockerHost, "");
    var logs, metrics := StreamOf(s, Target(dockerHost, LOG)), StreamOf(s, Target(dockerHost, METRIC));
    var response := Respond(cfg.codec, sizes, logs, metrics, req);
    if response.Success? && r in response.value.records {
      var limit := EffectiveLimit(req.limit, sizes);
      var logPage := KindPage(cfg.codec, req.kinds, LOG, logs, req.start, req.end, req.logCursor, limit).value;
      var metricPage :=
        KindPage(cfg.codec, req.kinds, METRIC, metrics, req.start, req.end, req.metricCursor, limit).value;
      TimelineMembers(req.filters, logPage.hits, metricPage.hits, r);
      if r in RecordsOf(logPage.hits) {
        var h := HitWithRecord(logPage.hits, r);
        HitInKind(cfg, s, dockerHost, LOG, req.start, req.end, req.logCursor, limit, h);
      } else {
        var h := HitWithRecord(metricPage.hits, r);
        HitInKind(cfg, s, dockerHost, METRIC, req.start, req.end, req.metricCursor, limit, h);
      }
    }
  }

  lemma HitInKind(cfg: Config, s: Server, dockerHost: string, kind: Kind, start: nat, end: nat,
                  cursor: Option<StreamId>, limit: nat, h: Hit)
    requires Reached(cfg, s) && RoundTrips(cfg.codec, s.pushed) && limit >= 1
    requires Fetch(cfg.codec, StreamOf(s, Target(dockerHost, kind)), start, end, cursor, limit).Success?
    requires h in Fetch(cfg.codec, StreamOf(s, Target(dockerHost, kind)), start, end, cursor, limit).value.hits
    ensures h.record.dockerHost == dockerHost && (h.record.LogRecord? <==> kind == LOG)
  {
    var stream := StreamOf(s, Target(dockerHost, kind));
    StreamDecodes(cfg, s, Target(dockerHost, kind));
    FetchAnswers(cfg.codec, stream, start, end, cursor, limit);
    var e :| e in stream.entries && e.id == h.id && e.data.Some? && cfg.codec.decode(e.data.value) == Some(h.record);
    StreamHoldsItsKind(cfg, s, dockerHost, kind, e);
  }
}
