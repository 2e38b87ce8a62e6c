/** From the ingest list to the pages a client walks, over every run of log-server. */
module EndToEnd {
  import opened Wrappers
  import opened RedisKeys
  import opened Streams
  import opened Records
  import opened Queries
  import opened PageWalk
  import opened Trimmer
  import opened LogServer
  import opened LogServerSafety

  // A state of some run of the server from empty.
  ghost predicate Reached(cfg: Config, s: Server) {
    exists acts :: CanServe(cfg, FRESH, acts) && Served(cfg, FRESH, acts) == s
  }

  lemma ReachedIsGood(cfg: Config, s: Server, t: Target)
    requires Reached(cfg, s)
    ensures Good(cfg, s, t)
  {
    var acts :| CanServe(cfg, FRESH, acts) && Served(cfg, FRESH, acts) == s;
    ServiceIsGood(cfg, acts, t);
  }

  // ---------- Ingestion ----------

  /** Whatever fails: no push is stored twice, stored pushes keep their order, and each lies in
      the stream of its own daemon and kind, holding the record it carried. */
  lemma AtMostOnce(cfg: Config, s: Server)
    requires Reached(cfg, s)
    ensures forall i, j :: 0 <= i < j < |s.placed| ==> s.placed[i].index < s.placed[j].index
    ensures forall p :: p in s.placed ==>
              && p.index < |s.pushed| && cfg.codec.decode(s.pushed[p.index]).Some?
              && (p.target.kind == LOG <==> cfg.codec.decode(s.pushed[p.index]).value.LogRecord?)
              && (p.target.kind == METRIC <==> cfg.codec.decode(s.pushed[p.index]).value.MetricRecord?)
              && p.target.dockerHost == cfg.codec.decode(s.pushed[p.index]).value.dockerHost
              && p.entry.data == Some(cfg.codec.encode(cfg.codec.decode(s.pushed[p.index]).value))
  {
    ReachedIsGood(cfg, s, Target("", LOG));
  }

  /** What was ever stored in a stream is a subsequence of what was pushed for it. */
  lemma StoredInPushOrder(cfg: Config, s: Server, t: Target)
    requires Reached(cfg, s)
    ensures Subsequence(Payloads(EntriesOf(s.placed, t)), Encoded(cfg.codec, Routed(cfg.codec, s.pushed, t)))
  {
    assert StoredAsPushed(cfg, s, t) by { ReachedIsGood(cfg, s, t); }
    var settled, rest := s.pushed[..s.settled], s.pushed[s.settled..];
    assert s.pushed == settled + rest;
    DueGrows(cfg.codec, settled, rest, t);
    SubsequenceGrows(Payloads(EntriesOf(s.placed, t)), Encoded(cfg.codec, Routed(cfg.codec, settled, t)),
                     Encoded(cfg.codec, Routed(cfg.codec, rest, t)));
  }

  /** What a stream holds is the newest part of what was ever stored in it, or all of it if it
      was never trimmed. */
  lemma StreamHoldsNewest(cfg: Config, s: Server, t: Target)
    requires Reached(cfg, s)
    ensures var stored, held := EntriesOf(s.placed, t), StreamOf(s, t).entries;
            |held| <= |stored| && held == stored[|stored| - |held|..] && (t !in s.lastTrim ==> held == stored)
  {
    assert HoldsNewest(s, t) by { ReachedIsGood(cfg, s, t); }
    EndsWithMeaning(EntriesOf(s.placed, t), StreamOf(s, t).entries);
  }

  /** Without faults, once the list and the batch are empty, exactly the valid pushes of each
      target have been stored in it, in push order, whatever the batch size was. */
  lemma NothingIsLost(cfg: Config, s: Server, t: Target)
    requires Reached(cfg, s) && s.faults == 0 && s.hand == [] && s.ingest == []
    ensures Payloads(EntriesOf(s.placed, t)) == Encoded(cfg.codec, Routed(cfg.codec, s.pushed, t))
  {
    ReachedIsGood(cfg, s, t);
    assert s.pushed[..s.settled] == s.pushed;
  }

  // ---------- Retention ----------

  /** A trim that works leaves of its stream exactly the suffix stamped within the retention of
      the sweep's time; every other stream, and every stream whose trim fails, is unchanged. */
  lemma TrimEffect(cfg: Config, s: Server, works: bool, t: Target)
    requires Reached(cfg, s) && CanAct(cfg, s, TrimNext(works))
    ensures var before, after := StreamOf(s, t).entries, StreamOf(Next(cfg, s, TrimNext(works)), t).entries;
            if works && s.sweep.todo[0] == t
            then && |after| <= |before| && after == before[|before| - |after|..]
                 && forall e :: e in after <==>
                      e in before && e.id.ms >= s.sweep.at - RetentionMs(cfg.retention, t.kind)
            else after == before
  {
    ReachedIsGood(cfg, s, t);
    TrimOnStream(cfg, s, works, t);
    TrimIsExact(StreamOf(s, t).entries, MinId(cfg.retention, t.kind, s.sweep.at));
  }

  /** At any time, no entry of a stream is older than its retention plus the time since the
      stream was last trimmed successfully. */
  lemma RetentionBound(cfg: Config, s: Server, t: Target, e: Entry)
    requires Reached(cfg, s) && t in s.lastTrim && e in StreamOf(s, t).entries
    ensures s.now - e.id.ms <= Grace(cfg.retention, t.kind) + (s.now - s.lastTrim[t])
    ensures s.lastTrim[t] <= s.now
  {
    ReachedIsGood(cfg, s, t);
  }

  /** Nothing is deleted early: an entry that was ever stored is still there if its stream was
      never trimmed, or if it is not older than the retention at the stream's last trim. */
  lemma NothingTrimmedEarly(cfg: Config, s: Server, t: Target, e: Entry)
    requires Reached(cfg, s) && e in EntriesOf(s.placed, t)
    requires t in s.lastTrim ==> e.id.ms >= s.lastTrim[t] - RetentionMs(cfg.retention, t.kind)
    ensures e in StreamOf(s, t).entries
  {
    ReachedIsGood(cfg, s, t);
  }

  /** The streams of a daemon that is not configured are never trimmed. */
  lemma OnlyConfiguredTrimmed(cfg: Config, s: Server, t: Target)
    requires Reached(cfg, s) && t.dockerHost !in cfg.daemonIds
    ensures t !in s.lastTrim && StreamOf(s, t).entries == EntriesOf(s.placed, t)
  {
    ReachedIsGood(cfg, s, t);
  }

  // Part of a sweep in which every trim works.
  ghost predicate AllWork(acts: seq<Act>) {
    forall a :: a in acts ==> !a.SweepStarts? && !a.SweepEnds? && a != TrimNext(false)
  }

  // Each target of the sweep is trimmed or still to come.
  lemma {:induction false} SweepGetsOn(cfg: Config, s: Server, acts: seq<Act>, t: Target)
    requires s.sweep == Sweeping(s.now, Targets(cfg.daemonIds)) && t in s.sweep.todo
    requires CanServe(cfg, s, acts) && AllWork(acts)
    ensures var e := Served(cfg, s, acts);
            && e.sweep.Sweeping? && e.sweep.at == s.now
            && (t in e.sweep.todo || (t in e.lastTrim && e.lastTrim[t] == s.now))
  {
    if acts != [] {
      SweepGetsOn(cfg, s, acts[..|acts| - 1], t);
      assert acts[|acts| - 1] in acts;
    }
  }

  /** Whatever interleaves with a sweep: when it is over and its trims have worked, both streams
      of every configured daemon hold no entry older than the retention plus the time since the
      sweep began. */
  lemma SweepBound(cfg: Config, s: Server, acts: seq<Act>, host: string, kind: Kind, e: Entry)
    requires Reached(cfg, s) && s.sweep.Asleep? && host in cfg.daemonIds
    requires CanServe(cfg, Next(cfg, s, SweepStarts), acts) && AllWork(acts)
    requires CanAct(cfg, Served(cfg, Next(cfg, s, SweepStarts), acts), SweepEnds)
    requires e in StreamOf(Served(cfg, Next(cfg, s, SweepStarts), acts), Target(host, kind)).entries
    ensures Served(cfg, Next(cfg, s, SweepStarts), acts).now - e.id.ms
            <= Grace(cfg.retention, kind) + (Served(cfg, Next(cfg, s, SweepStarts), acts).now - s.now)
  {
    var begun, t := Next(cfg, s, SweepStarts), Target(host, kind);
    TargetsMeaning(cfg.daemonIds, t);
    SweepGetsOn(cfg, begun, acts, t);
    ReachedOn(cfg, s, [SweepStarts], begun);
    ReachedOn(cfg, begun, acts, Served(cfg, begun, acts));
    RetentionBound(cfg, Served(cfg, begun, acts), t, e);
  }

  lemma {:induction false} ReachedOn(cfg: Config, s: Server, acts: seq<Act>, e: Server)
    requires Reached(cfg, s) && CanServe(cfg, s, acts) && Served(cfg, s, acts) == e
    ensures Reached(cfg, e)
  {
    if acts != [] {
      var init, a := acts[..|acts| - 1], acts[|acts| - 1];
      ReachedOn(cfg, s, init, Served(cfg, s, init));
      var before :| CanServe(cfg, FRESH, before) && Served(cfg, FRESH, before) == Served(cfg, s, init);
      assert (before + [a])[..|before|] == before;
      assert CanServe(cfg, FRESH, before + [a]) && Served(cfg, FRESH, before + [a]) == e;
    }
  }

  // ---------- Reading while the server works ----------

  lemma StepEvolves(cfg: Config, s: Server, a: Act, t: Target)
    requires CanAct(cfg, s, a) && Valid(StreamOf(s, t))
    ensures Evolves(StreamOf(s, t), StreamOf(Next(cfg, s, a), t))
  {
    if a.StoreNext? {
      StoreOnStream(cfg, s, t);
      if cfg.codec.decode(s.hand[0]).Some? {
        AddEvolves(StreamOf(s, t), cfg.codec.encode(cfg.codec.decode(s.hand[0]).value), s.now);
      }
    } else if a.TrimNext? {
      TrimOnStream(cfg, s, a.works, t);
      TrimEvolves(StreamOf(s, t), MinId(cfg.retention, t.kind, s.sweep.at));
    } else {
      QuietStep(cfg, s, a, Next(cfg, s, a));
    }
  }

  lemma {:induction false} ServiceEvolves(cfg: Config, s: Server, acts: seq<Act>, t: Target)
    requires CanServe(cfg, s, acts) && Valid(StreamOf(s, t))
    ensures Evolves(StreamOf(s, t), StreamOf(Served(cfg, s, acts), t))
  {
    if acts != [] {
      var init := acts[..|acts| - 1];
      ServiceEvolves(cfg, s, init, t);
      StepEvolves(cfg, Served(cfg, s, init), acts[|acts| - 1], t);
      EvolvesTransitive(StreamOf(s, t), StreamOf(Served(cfg, s, init), t), StreamOf(Served(cfg, s, acts), t));
    }
  }

  // What was stored in a target was placed there.
  lemma {:induction false} EntriesWerePlaced(placed: seq<Placement>, t: Target)
    ensures forall e :: e in EntriesOf(placed, t) ==> exists p :: p in placed && p.target == t && p.entry == e
  {
    if placed != [] {
      EntriesWerePlaced(placed[..|placed| - 1], t);
      assert placed[|placed| - 1] in placed;
      assert forall p :: p in placed[..|placed| - 1] ==> p in placed;
    }
  }

  // Whatever a stream holds stems from a push.
  lemma HeldWasPushed(cfg: Config, s: Server, t: Target, e: Entry) returns (raw: string)
    requires Reached(cfg, s) && e in StreamOf(s, t).entries
    ensures raw in s.pushed && cfg.codec.decode(raw).Some?
    ensures TargetOf(cfg.codec.decode(raw).value) == t
    ensures e.data == Some(cfg.codec.encode(cfg.codec.decode(raw).value))
  {
    ReachedIsGood(cfg, s, t);
    EndsWithMeaning(EntriesOf(s.placed, t), StreamOf(s, t).entries);
    assert e in EntriesOf(s.placed, t);
    EntriesWerePlaced(s.placed, t);
    var p :| p in s.placed && p.target == t && p.entry == e;
    raw := s.pushed[p.index];
  }

  lemma StreamDecodes(cfg: Config, s: Server, t: Target)
    requires Reached(cfg, s) && Reparses(cfg.codec, s.pushed)
    ensures Valid(StreamOf(s, t)) && forall e :: e in StreamOf(s, t).entries ==> Decodes(cfg.codec, e)
  {
    ReachedIsGood(cfg, s, t);
    forall e | e in StreamOf(s, t).entries
      ensures Decodes(cfg.codec, e)
    {
      var raw := HeldWasPushed(cfg, s, t, e);
    }
  }

  /** The log stream of a host holds log records of that host and nothing else, and its metric
      stream metrics. */
  lemma StreamHoldsItsKind(cfg: Config, s: Server, dockerHost: string, kind: Kind, e: Entry)
    requires Reached(cfg, s) && RoundTrips(cfg.codec, s.pushed) && e in StreamOf(s, Target(dockerHost, kind)).entries
    ensures e.data.Some? && cfg.codec.decode(e.data.value).Some?
    ensures var r := cfg.codec.decode(e.data.value).value;
            r.dockerHost == dockerHost && (r.LogRecord? <==> kind == LOG) && (r.MetricRecord? <==> kind == METRIC)
  {
    var raw := HeldWasPushed(cfg, s, Target(dockerHost, kind), e);
    assert ReadsBack(cfg.codec, cfg.codec.decode(raw).value);
  }

  /** A fetch never raises on what the consumer wrote, from any cursor and with any limit. */
  lemma FetchNeverRaises(cfg: Config, s: Server, t: Target, start: nat, end: nat, cursor: Option<StreamId>, limit: nat)
    requires Reached(cfg, s) && Reparses(cfg.codec, s.pushed) && limit >= 1
    ensures Fetch(cfg.codec, StreamOf(s, t), start, end, cursor, limit).Success?
  {
    StreamDecodes(cfg, s, t);
    var stream := StreamOf(s, t);
    RangeMeaning(stream.entries, StartBound(start, cursor), Ceiling(end));
    FetchMeaning(cfg.codec, stream, start, end, cursor, limit);
    var ahead := Ahead(stream, start, end, cursor);
    assert |ahead| > 0 ==> ahead[0] in ahead;
  }

  // The states a client's fetches meet while the server keeps working.
  ghost predicate Timeline(cfg: Config, states: seq<Server>) {
    && (forall s :: s in states ==> Reached(cfg, s))
    && (forall i :: 0 < i < |states| ==> Leads(cfg, states[i - 1], states[i]))
  }

  ghost predicate Leads(cfg: Config, s: Server, t: Server) {
    exists acts :: CanServe(cfg, s, acts) && Served(cfg, s, acts) == t
  }

  function StreamsAt(states: seq<Server>, t: Target): seq<Stream> {
    seq(|states|, i requires 0 <= i < |states| => StreamOf(states[i], t))
  }

  lemma TimelineEvolves(cfg: Config, states: seq<Server>, t: Target)
    requires Timeline(cfg, states)
    ensures Evolving(StreamsAt(states, t))
  {
    var stores := StreamsAt(states, t);
    forall s | s in states
      ensures Valid(StreamOf(s, t))
    {
      ReachedIsGood(cfg, s, t);
    }
    forall i | 0 < i < |stores|
      ensures Evolves(stores[i - 1], stores[i])
    {
      assert states[i - 1] in states && Leads(cfg, states[i - 1], states[i]);
      var acts :| CanServe(cfg, states[i - 1], acts) && Served(cfg, states[i - 1], acts) == states[i];
      ServiceEvolves(cfg, states[i - 1], acts, t);
    }
  }

  /** A client walks one stream while items are consumed and sweeps run between its fetches:
      the complete walk ascends, returns only what was stored at one of its fetches, and misses
      nothing decodable in range that was there from the first fetch to the last. */
  lemma WalkWhileServing(cfg: Config, states: seq<Server>, t: Target, start: nat, end: nat, limit: nat)
    requires Timeline(cfg, states) && limit >= 1
    requires WalkOver(cfg.codec, StreamsAt(states, t), start, end, None, limit).Some?
    ensures states != []
    ensures var hits := WalkOver(cfg.codec, StreamsAt(states, t), start, end, None, limit).value;
            && AscendingHits(hits)
            && (forall h :: h in hits ==> Seen(cfg.codec, StreamsAt(states, t), start, end, h))
            && (forall e :: e in StreamOf(states[0], t).entries && e in StreamOf(states[|states| - 1], t).entries
                            && start <= e.id.ms <= end && Decodes(cfg.codec, e)
                  ==> HitOf(cfg.codec, e) in hits)
    ensures Reparses(cfg.codec, states[0].pushed) ==>
              forall e :: e in StreamOf(states[0], t).entries ==> Decodes(cfg.codec, e)
  {
    var stores := StreamsAt(states, t);
    TimelineEvolves(cfg, states, t);
    WalkUnderChange(cfg.codec, stores, start, end, limit);
    assert stores[0] == StreamOf(states[0], t) && stores[|stores| - 1] == StreamOf(states[|states| - 1], t);
    if Reparses(cfg.codec, states[0].pushed) {
      assert states[0] in states;
      StreamDecodes(cfg, states[0], t);
    }
  }

  // ---------- The whole way ----------

  ghost predicate Covers(start: nat, end: nat, entries: seq<Entry>) {
    forall e :: e in entries ==> start <= e.id.ms <= end
  }

  lemma WholeRange(s: Stream, start: nat, end: nat)
    requires Valid(s) && Covers(start, end, s.entries)
    ensures Ahead(s, start, end, None) == s.entries
  {
    RangeMeaning(s.entries, From(StreamId(start, 0)), Ceiling(end));
    AscendingUnique(Ahead(s, start, end, None), s.entries);
  }

  // Only parsed records are ever routed.
  lemma {:induction false} RoutedReadBack(codec: Codec, raws: seq<string>, t: Target)
    requires RoundTrips(codec, raws)
    ensures forall r :: r in Routed(codec, raws, t) ==> ReadsBack(codec, r)
  {
    if raws != [] {
      RoutedReadBack(codec, raws[..|raws| - 1], t);
      assert raws[|raws| - 1] in raws;
    }
  }

  // Reading back entries that hold encoded records yields these records.
  lemma {:induction false} ReadBack(codec: Codec, entries: seq<Entry>, records: seq<Record>)
    requires forall r :: r in records ==> ReadsBack(codec, r)
    requires Payloads(entries) == Encoded(codec, records)
    ensures RecordsOf(Hits(codec, entries)) == records
  {
    assert |Payloads(entries)| == |entries| && |Encoded(codec, records)| == |records|;
    if entries != [] {
      var n := |entries| - 1;
      assert Payloads(entries)[n] == Encoded(codec, records)[n];
      assert Payloads(entries[..n]) == Payloads(entries)[..n];
      assert Encoded(codec, records[..n]) == Encoded(codec, records)[..n];
      ReadBack(codec, entries[..n], records[..n]);
      assert records == records[..n] + [records[n]];
      assert ReadsBack(codec, records[n]);
    }
  }

  /** End to end: for any pushes, any batch size and any interleaving without faults or trims,
      once everything is consumed a walk with any page limit over a covering range returns
      exactly the valid pushed records of that daemon and kind, in push order. */
  lemma EveryRecordArrives(cfg: Config, s: Server, t: Target, start: nat, end: nat, limit: nat)
    requires Reached(cfg, s) && RoundTrips(cfg.codec, s.pushed) && limit >= 1
    requires s.faults == 0 && t !in s.lastTrim && s.hand == [] && s.ingest == []
    requires Covers(start, end, StreamOf(s, t).entries)
    ensures Valid(StreamOf(s, t))
    ensures var walk := Walk(cfg.codec, StreamOf(s, t), start, end, None, limit);
            walk.Success? && RecordsOf(walk.value.hits) == Routed(cfg.codec, s.pushed, t)
  {
    var stream := StreamOf(s, t);
    StreamDecodes(cfg, s, t);
    WholeRange(stream, start, end);
    WalkFetches(cfg.codec, stream, start, end, None, limit);
    WalkIsComplete(cfg.codec, stream, start, end, None, limit);
    ReachedIsGood(cfg, s, t);
    NothingIsLost(cfg, s, t);
    RoutedReadBack(cfg.codec, s.pushed, t);
    ReadBack(cfg.codec, stream.entries, Routed(cfg.codec, s.pushed, t));
  }
}
