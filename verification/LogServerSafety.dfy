/** What every step of log-server keeps, and what follows for whole runs. */
module LogServerSafety {
  import opened Wrappers
  import opened RedisKeys
  import opened Streams
  import opened Records
  import opened Consumer
  import opened Trimmer
  import opened LogServer

  lemma KeyOfInjective(t: Target, u: Target)
    ensures KeyOf(t) == KeyOf(u) <==> t == u
  {
    StreamKeyInjective(t.dockerHost, t.kind, u.dockerHost, u.kind);
  }

  // Storing one item, seen from one stream.
  lemma StoreOnStream(cfg: Config, s: Server, t: Target)
    requires s.hand != []
    ensures var e := OnStore(cfg, s);
            match cfg.codec.decode(s.hand[0])
            case None => e.streams == s.streams && e.placed == s.placed
            case Some(record) =>
              if TargetOf(record) == t
              then && StreamOf(e, t) == Added(StreamOf(s, t), cfg.codec.encode(record), s.now)
                   && EntriesOf(e.placed, t) == EntriesOf(s.placed, t)
                                                + [Entry(NextId(StreamOf(s, t).lastId, s.now),
                                                         Some(cfg.codec.encode(record)))]
              else StreamOf(e, t) == StreamOf(s, t) && EntriesOf(e.placed, t) == EntriesOf(s.placed, t)
  {
    var e := OnStore(cfg, s);
    if cfg.codec.decode(s.hand[0]).Some? {
      KeyOfInjective(TargetOf(cfg.codec.decode(s.hand[0]).value), t);
      assert e.placed[..|e.placed| - 1] == s.placed;
    }
  }

  lemma {:induction false} EndsWithOneMore(all: seq<Entry>, newest: seq<Entry>, e: Entry)
    requires EndsWith(all, newest)
    ensures EndsWith(all + [e], newest + [e])
  {
    if all != newest {
      EndsWithOneMore(all[1..], newest, e);
      assert (all + [e])[1..] == all[1..] + [e];
    }
  }

  lemma {:induction false} EndsWithLess(all: seq<Entry>, newest: seq<Entry>, k: nat)
    requires EndsWith(all, newest) && k <= |newest|
    ensures EndsWith(all, newest[k..])
  {
    if all != newest {
      EndsWithLess(all[1..], newest, k);
    } else if k > 0 {
      EndsWithLess(all[1..], newest[1..], k - 1);
      assert newest[1..][k - 1..] == newest[k..];
    } else {
      assert newest[0..] == newest;
    }
  }

  lemma {:induction false} EndsWithMeaning(all: seq<Entry>, newest: seq<Entry>)
    requires EndsWith(all, newest)
    ensures |newest| <= |all| && newest == all[|all| - |newest|..]
  {
    if all != newest {
      EndsWithMeaning(all[1..], newest);
    }
  }

  lemma NewestAfterAdd(stream: Stream, stored: seq<Entry>, whole: bool, data: string, now: nat)
    requires NewestOf(stream, stored, whole)
    ensures NewestOf(Added(stream, data, now), stored + [Entry(NextId(stream.lastId, now), Some(data))], whole)
  {
    AddedValid(stream, data, now);
    EndsWithOneMore(stored, stream.entries, Entry(NextId(stream.lastId, now), Some(data)));
  }

  lemma NewestAfterTrim(stream: Stream, stored: seq<Entry>, whole: bool, minMs: int)
    requires NewestOf(stream, stored, whole)
    ensures NewestOf(Trimmed(stream, minMs), stored, false) && NothingBelow(Trimmed(stream, minMs), minMs)
  {
    TrimmedValid(stream, minMs);
    TrimIsExact(stream.entries, minMs);
    EndsWithLess(stored, stream.entries, |stream.entries| - |Trimmed(stream, minMs).entries|);
  }

  lemma StoreKeepsNewest(cfg: Config, s: Server, t: Target)
    requires s.hand != [] && HoldsNewest(s, t)
    ensures HoldsNewest(OnStore(cfg, s), t)
  {
    StoreOnStream(cfg, s, t);
    var record := cfg.codec.decode(s.hand[0]);
    if record.Some? && TargetOf(record.value) == t {
      NewestAfterAdd(StreamOf(s, t), EntriesOf(s.placed, t), t !in s.lastTrim, cfg.codec.encode(record.value), s.now);
    }
  }

  lemma StoreKeepsRetained(cfg: Config, s: Server, t: Target)
    requires s.hand != [] && Retained(cfg, s, t)
    ensures Retained(cfg, OnStore(cfg, s), t)
  {
  }

  lemma LinedAfterOne(pushed: seq<string>, settled: nat, hand: seq<string>, ingest: seq<string>)
    requires Lined(pushed, settled, hand, ingest) && hand != []
    ensures Lined(pushed, settled + 1, hand[1..], ingest)
    ensures pushed[settled] == hand[0] && pushed[..settled + 1] == pushed[..settled] + [hand[0]]
  {
  }

  lemma StoreKeepsPushes(cfg: Config, s: Server)
    requires s.hand != [] && s.phase.Storing? && PushesConserved(s)
    ensures PushesConserved(OnStore(cfg, s)) && PushesConserved(Next(cfg, s, StoreFails))
    ensures s.pushed[s.settled] == s.hand[0]
    ensures s.pushed[..s.settled + 1] == s.pushed[..s.settled] + [s.hand[0]]
  {
    LinedAfterOne(s.pushed, s.settled, s.hand, s.ingest);
  }

  lemma StoreKeepsPlaced(cfg: Config, s: Server)
    requires s.hand != [] && s.phase.Storing? && PushesConserved(s) && PlacedOnce(cfg, s)
    ensures PlacedOnce(cfg, OnStore(cfg, s))
  {
    LinedAfterOne(s.pushed, s.settled, s.hand, s.ingest);
    var e := OnStore(cfg, s);
    assert forall p :: p in e.placed ==> p in s.placed || p == e.placed[|e.placed| - 1];
  }

  lemma {:induction false} RoutedAppend(codec: Codec, a: seq<string>, b: seq<string>, t: Target)
    ensures Routed(codec, a + b, t) == Routed(codec, a, t) + Routed(codec, b, t)
  {
    if b == [] {
      assert a + b == a;
    } else {
      assert (a + b)[..|a + b| - 1] == a + b[..|b| - 1];
      RoutedAppend(codec, a, b[..|b| - 1], t);
    }
  }

  lemma {:induction false} SubsequenceGrows<T>(a: seq<T>, b: seq<T>, more: seq<T>)
    requires Subsequence(a, b)
    ensures Subsequence(a, b + more)
  {
    if more == [] {
      assert b + more == b;
    } else {
      SubsequenceGrows(a, b, more[..|more| - 1]);
      assert (b + more)[..|b + more| - 1] == b + more[..|more| - 1];
    }
  }

  // What is due after more pushes have been settled.
  lemma DueGrows(codec: Codec, a: seq<string>, b: seq<string>, t: Target)
    ensures Encoded(codec, Routed(codec, a + b, t))
            == Encoded(codec, Routed(codec, a, t)) + Encoded(codec, Routed(codec, b, t))
  {
    RoutedAppend(codec, a, b, t);
  }

  lemma StoreKeepsAll(cfg: Config, s: Server, t: Target)
    requires s.hand != [] && s.phase.Storing? && PushesConserved(s) && StoredAsPushed(cfg, s, t)
    ensures StoredAsPushed(cfg, OnStore(cfg, s), t)
  {
    StoreKeepsPushes(cfg, s);
    StoreOnStream(cfg, s, t);
    var before, stored := s.pushed[..s.settled], EntriesOf(s.placed, t);
    var due := Encoded(cfg.codec, Routed(cfg.codec, before, t));
    var record := cfg.codec.decode(s.hand[0]);
    assert Encoded(cfg.codec, Routed(cfg.codec, s.pushed[..s.settled + 1], t))
        == due + if record.Some? && TargetOf(record.value) == t then [Some(cfg.codec.encode(record.value))] else [] by {
      DueGrows(cfg.codec, before, [s.hand[0]], t);
      OneDue(cfg.codec, s.hand[0], t);
    }
    if record.Some? && TargetOf(record.value) == t {
      StoredGrows(stored, due, Entry(NextId(StreamOf(s, t).lastId, s.now), Some(cfg.codec.encode(record.value))));
    }
  }

  lemma StoredGrows(stored: seq<Entry>, due: seq<Option<string>>, entry: Entry)
    requires Subsequence(Payloads(stored), due)
    ensures Payloads(stored + [entry]) == Payloads(stored) + [entry.data]
    ensures Subsequence(Payloads(stored + [entry]), due + [entry.data])
  {
  }

  // What a single push makes due.
  lemma OneDue(codec: Codec, raw: string, t: Target)
    ensures var record := codec.decode(raw);
            Encoded(codec, Routed(codec, [raw], t))
            == if record.Some? && TargetOf(record.value) == t then [Some(codec.encode(record.value))] else []
  {
  }

  lemma FaultKeepsAll(cfg: Config, s: Server, e: Server, t: Target)
    requires StoredAsPushed(cfg, s, t)
    requires e.placed == s.placed && s.settled <= e.settled <= |e.pushed| && s.pushed <= e.pushed
    requires e.faults == 0 ==> s.faults == 0 && e.settled == s.settled
    ensures StoredAsPushed(cfg, e, t)
  {
    var before, more := s.pushed[..s.settled], e.pushed[s.settled..e.settled];
    assert e.pushed[..e.settled] == before + more;
    DueGrows(cfg.codec, before, more, t);
    SubsequenceGrows(Payloads(EntriesOf(s.placed, t)), Encoded(cfg.codec, Routed(cfg.codec, before, t)),
                     Encoded(cfg.codec, Routed(cfg.codec, more, t)));
    assert e.settled == s.settled ==> e.pushed[..e.settled] == before;
  }

  // One trim, seen from one stream: exactly its target is cut, and only if the trim works.
  lemma TrimOnStream(cfg: Config, s: Server, works: bool, t: Target)
    requires s.sweep.Sweeping? && s.sweep.todo != []
    ensures StreamOf(OnTrim(cfg, s, works), t)
            == if works && s.sweep.todo[0] == t then Trimmed(StreamOf(s, t), MinId(cfg.retention, t.kind, s.sweep.at))
               else StreamOf(s, t)
  {
    KeyOfInjective(s.sweep.todo[0], t);
  }

  lemma TrimKeepsNewest(cfg: Config, s: Server, works: bool, t: Target)
    requires s.sweep.Sweeping? && s.sweep.todo != [] && HoldsNewest(s, t)
    ensures HoldsNewest(OnTrim(cfg, s, works), t)
  {
    TrimOnStream(cfg, s, works, t);
    if works && s.sweep.todo[0] == t {
      NewestAfterTrim(StreamOf(s, t), EntriesOf(s.placed, t), t !in s.lastTrim,
                      MinId(cfg.retention, t.kind, s.sweep.at));
    }
  }

  lemma TrimKeepsRetained(cfg: Config, s: Server, works: bool, t: Target)
    requires s.sweep.Sweeping? && s.sweep.todo != [] && HoldsNewest(s, t) && Retained(cfg, s, t)
    ensures Retained(cfg, OnTrim(cfg, s, works), t)
  {
    TrimOnStream(cfg, s, works, t);
    if works && s.sweep.todo[0] == t {
      var minMs := MinId(cfg.retention, t.kind, s.sweep.at);
      NewestAfterTrim(StreamOf(s, t), EntriesOf(s.placed, t), t !in s.lastTrim, minMs);
      assert minMs >= s.sweep.at - Grace(cfg.retention, t.kind);
    }
  }

  // Steps that neither store nor trim leave the streams and what was stored alone.
  lemma QuietStep(cfg: Config, s: Server, a: Act, e: Server)
    requires Steps(cfg, s, a, e) && !a.StoreNext? && !a.TrimNext?
    ensures e.streams == s.streams && e.placed == s.placed && e.lastTrim == s.lastTrim && e.now >= s.now
    ensures e.sweep == s.sweep || e.sweep.Asleep? || e.sweep.at == s.now
    ensures s.settled <= e.settled && s.pushed <= e.pushed
    ensures e.faults == 0 ==> s.faults == 0 && e.settled == s.settled
  {
  }

  lemma LinedAfterTake(pushed: seq<string>, settled: nat, hand: seq<string>, ingest: seq<string>, n: nat)
    requires Lined(pushed, settled, hand, ingest) && n <= |ingest|
    ensures Lined(pushed, settled, hand + ingest[..n], ingest[n..])
    ensures Lined(pushed, settled + |hand| + n, [], ingest[n..])
  {
  }

  lemma PopKeepsPushes(cfg: Config, s: Server, a: Act, e: Server)
    requires Steps(cfg, s, a, e) && PushesConserved(s) && (a.Blpop? || a.Lpop? || a.RedisFails?)
    ensures PushesConserved(e)
  {
    if a.Blpop? {
      LinedAfterTake(s.pushed, s.settled, [], s.ingest, 1);
      assert [] + s.ingest[..1] == [s.ingest[0]];
    } else {
      LinedAfterTake(s.pushed, s.settled, s.hand, s.ingest,
                     if a.Lpop? then Least(|s.ingest|, More(cfg.batchSize)) else a.lost);
    }
  }

  lemma StepKeepsPushes(cfg: Config, s: Server, a: Act, e: Server)
    requires Steps(cfg, s, a, e) && PushesConserved(s)
    ensures PushesConserved(e)
  {
    if a.StoreNext? || a.StoreFails? {
      StoreKeepsPushes(cfg, s);
    } else if a.Blpop? || a.Lpop? || a.RedisFails? {
      PopKeepsPushes(cfg, s, a, e);
    }
  }

  lemma StepKeepsPlaced(cfg: Config, s: Server, a: Act, e: Server)
    requires Steps(cfg, s, a, e) && PushesConserved(s) && PlacedOnce(cfg, s)
    ensures PlacedOnce(cfg, e)
  {
    StepKeepsPushes(cfg, s, a, e);
    if a.StoreNext? {
      StoreKeepsPlaced(cfg, s);
    } else if !a.TrimNext? {
      QuietStep(cfg, s, a, e);
    }
  }

  lemma StepKeepsNewest(cfg: Config, s: Server, a: Act, e: Server, t: Target)
    requires Steps(cfg, s, a, e) && HoldsNewest(s, t)
    ensures HoldsNewest(e, t)
  {
    if a.StoreNext? {
      StoreKeepsNewest(cfg, s, t);
    } else if a.TrimNext? {
      TrimKeepsNewest(cfg, s, a.works, t);
    } else {
      QuietStep(cfg, s, a, e);
    }
  }

  lemma StepKeepsRetained(cfg: Config, s: Server, a: Act, e: Server, t: Target)
    requires Steps(cfg, s, a, e) && HoldsNewest(s, t) && Retained(cfg, s, t)
    ensures Retained(cfg, e, t)
  {
    if a.StoreNext? {
      StoreKeepsRetained(cfg, s, t);
    } else if a.TrimNext? {
      TrimKeepsRetained(cfg, s, a.works, t);
    } else {
      QuietStep(cfg, s, a, e);
    }
  }

  lemma StepKeepsAll(cfg: Config, s: Server, a: Act, e: Server, t: Target)
    requires Steps(cfg, s, a, e) && PushesConserved(s) && StoredAsPushed(cfg, s, t)
    ensures StoredAsPushed(cfg, e, t)
  {
    StepKeepsPushes(cfg, s, a, e);
    if a.StoreNext? {
      StoreKeepsAll(cfg, s, t);
    } else if !a.TrimNext? {
      QuietStep(cfg, s, a, e);
      FaultKeepsAll(cfg, s, e, t);
    }
  }

  lemma {:induction false} TargetsMeaning(daemonIds: seq<string>, t: Target)
    ensures t in Targets(daemonIds) <==> t.dockerHost in daemonIds
  {
    if daemonIds != [] {
      TargetsMeaning(daemonIds[1..], t);
      assert t.kind == LOG || t.kind == METRIC;
    }
  }

  lemma StoreKeepsSparing(cfg: Config, s: Server, t: Target)
    requires s.hand != [] && Sparing(cfg, s, t)
    ensures Sparing(cfg, OnStore(cfg, s), t)
  {
    StoreOnStream(cfg, s, t);
  }

  lemma TrimKeepsSparing(cfg: Config, s: Server, works: bool, t: Target)
    requires s.sweep.Sweeping? && s.sweep.todo != [] && HoldsNewest(s, t) && Sparing(cfg, s, t)
    ensures Sparing(cfg, OnTrim(cfg, s, works), t)
  {
    TrimOnStream(cfg, s, works, t);
    assert s.sweep.todo[0] in s.sweep.todo;
    if works && s.sweep.todo[0] == t {
      TrimIsExact(StreamOf(s, t).entries, MinId(cfg.retention, t.kind, s.sweep.at));
    }
  }

  lemma StepKeepsSparing(cfg: Config, s: Server, a: Act, e: Server, t: Target)
    requires Steps(cfg, s, a, e) && HoldsNewest(s, t) && Retained(cfg, s, t) && Sparing(cfg, s, t)
    ensures Sparing(cfg, e, t)
  {
    if a.StoreNext? {
      StoreKeepsSparing(cfg, s, t);
    } else if a.TrimNext? {
      TrimKeepsSparing(cfg, s, a.works, t);
    } else {
      QuietStep(cfg, s, a, e);
      TargetsMeaning(cfg.daemonIds, t);
    }
  }

  lemma {:induction false} ServiceIsGood(cfg: Config, acts: seq<Act>, t: Target)
    requires CanServe(cfg, FRESH, acts)
    ensures Good(cfg, Served(cfg, FRESH, acts), t)
  {
    if acts != [] {
      var init, a := acts[..|acts| - 1], acts[|acts| - 1];
      ServiceIsGood(cfg, init, t);
      var s := Served(cfg, FRESH, init);
      var e := Next(cfg, s, a);
      StepKeepsPushes(cfg, s, a, e);
      StepKeepsPlaced(cfg, s, a, e);
      StepKeepsNewest(cfg, s, a, e, t);
      StepKeepsRetained(cfg, s, a, e, t);
      StepKeepsSparing(cfg, s, a, e, t);
      StepKeepsAll(cfg, s, a, e, t);
    }
  }
}
