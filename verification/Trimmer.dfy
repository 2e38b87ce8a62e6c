/** The retention trimmer (trimmer.py): one sweep over every configured daemon. */
module Trimmer {
  import opened RedisKeys
  import opened Streams
  import opened RedisStore

  const MS_PER_DAY := 24 * 60 * 60 * 1000

  // `retention_days` for logs, `metrics_retention_days` for metrics.
  datatype Retention = Retention(logDays: int, metricDays: int)

  function RetentionMs(retention: Retention, kind: Kind): (ms: int)
    ensures kind == LOG ==> ms == retention.logDays * 86_400_000
    ensures kind == METRIC ==> ms == retention.metricDays * 86_400_000
  {
    (if kind.LOG? then retention.logDays else retention.metricDays) * MS_PER_DAY
  }

  function MinId(retention: Retention, kind: Kind, nowMs: int): int {
    nowMs - RetentionMs(retention, kind)
  }

  // Some trim of this stream among the first `n` daemons' takes effect.
  ghost predicate Reached(daemonIds: seq<string>, works: (nat, Kind) -> bool, n: nat, host: string, kind: Kind) {
    exists i: nat :: i < n && i < |daemonIds| && daemonIds[i] == host && works(i, kind)
  }

  // The sweep, `n` daemons in, as seen from one stream.
  ghost predicate SweptTo(before: Store, after: Store, retention: Retention, nowMs: int,
                          daemonIds: seq<string>, works: (nat, Kind) -> bool, n: nat, host: string, kind: Kind)
  {
    var key := StreamKey(host, kind);
    StreamAt(after, key) == if Reached(daemonIds, works, n, host, kind)
                            then Trimmed(StreamAt(before, key), MinId(retention, kind, nowMs))
                            else StreamAt(before, key)
  }

  lemma {:induction false} TrimAgain(entries: seq<Entry>, minMs: int)
    ensures TrimEntries(TrimEntries(entries, minMs), minMs) == TrimEntries(entries, minMs)
  {
    if entries != [] && entries[0].id.ms < minMs {
      TrimAgain(entries[1..], minMs);
    }
  }

  function TrimmedIf(store: Store, host: string, kind: Kind, minMs: int, works: bool): Store {
    if works then WithTrimmed(store, StreamKey(host, kind), minMs) else store
  }

  // One more daemon of a sweep, as seen from one stream.
  lemma SweepStep(start: Store, before: Store, after: Store, retention: Retention, nowMs: int,
                  daemonIds: seq<string>, works: (nat, Kind) -> bool, n: nat, host: string, kind: Kind)
    requires n < |daemonIds| && SweptTo(start, before, retention, nowMs, daemonIds, works, n, host, kind)
    requires after == TrimmedIf(TrimmedIf(before, daemonIds[n], LOG, MinId(retention, LOG, nowMs), works(n, LOG)),
                                daemonIds[n], METRIC, MinId(retention, METRIC, nowMs), works(n, METRIC))
    ensures SweptTo(start, after, retention, nowMs, daemonIds, works, n + 1, host, kind)
  {
    StreamKeyInjective(daemonIds[n], LOG, host, kind);
    StreamKeyInjective(daemonIds[n], METRIC, host, kind);
    TrimAgain(StreamAt(start, StreamKey(host, kind)).entries, MinId(retention, kind, nowMs));
    if host == daemonIds[n] && works(n, kind) {
      assert Reached(daemonIds, works, n + 1, host, kind);
    } else {
      assert Reached(daemonIds, works, n + 1, host, kind) == Reached(daemonIds, works, n, host, kind);
    }
  }

  // `_trim_stream`: an error is swallowed. `works` says whether the trim takes effect, which it
  // may even if its reply is lost.
  method TrimStream(redis: Redis, host: string, kind: Kind, minMs: int, works: bool)
    modifies redis`streams
    ensures redis.streams == TrimmedIf(old(redis.streams), host, kind, minMs, works)
  {
    if works {
      redis.XTrim(StreamKey(host, kind), minMs);
    }
  }

  ghost predicate Sound(store: Store, host: string) {
    && Ascending(StreamAt(store, StreamKey(host, LOG)).entries)
    && Ascending(StreamAt(store, StreamKey(host, METRIC)).entries)
  }

  // `after` has exactly the entries of `before` that, if the stream is cut, are no older than `minMs`.
  ghost predicate Keeps(before: Stream, after: Stream, cut: bool, minMs: int) {
    forall e :: e in after.entries <==> e in before.entries && (cut ==> e.id.ms >= minMs)
  }

  // What a sweep leaves of the two streams of one host: of one that was reached, the entries no
  // older than so many days of 86,400,000 milliseconds.
  ghost predicate KeepsInDays(before: Store, after: Store, retention: Retention, nowMs: int, host: string,
                              logCut: bool, metricCut: bool)
  {
    && Keeps(StreamAt(before, StreamKey(host, LOG)), StreamAt(after, StreamKey(host, LOG)),
             logCut, nowMs - retention.logDays * 86_400_000)
    && Keeps(StreamAt(before, StreamKey(host, METRIC)), StreamAt(after, StreamKey(host, METRIC)),
             metricCut, nowMs - retention.metricDays * 86_400_000)
  }

  lemma SweptExactly(before: Store, after: Store, retention: Retention, nowMs: int, daemonIds: seq<string>,
                     works: (nat, Kind) -> bool, host: string)
    requires forall kind :: SweptTo(before, after, retention, nowMs, daemonIds, works, |daemonIds|, host, kind)
    requires Sound(before, host)
    ensures KeepsInDays(before, after, retention, nowMs, host,
                        Reached(daemonIds, works, |daemonIds|, host, LOG),
                        Reached(daemonIds, works, |daemonIds|, host, METRIC))
  {
    assert SweptTo(before, after, retention, nowMs, daemonIds, works, |daemonIds|, host, LOG);
    assert SweptTo(before, after, retention, nowMs, daemonIds, works, |daemonIds|, host, METRIC);
    TrimIsExact(StreamAt(before, StreamKey(host, LOG)).entries, MinId(retention, LOG, nowMs));
    TrimIsExact(StreamAt(before, StreamKey(host, METRIC)).entries, MinId(retention, METRIC, nowMs));
  }

  // `_trim_once`: each stream of a configured daemon is cut at its kind's horizon unless none
  // of its trims takes effect; no other stream changes. `works(i, kind)` says whether the
  // i-th daemon's trim of that kind takes effect.
  method TrimOnce(redis: Redis, daemonIds: seq<string>, retention: Retention, nowMs: int, works: (nat, Kind) -> bool)
    modifies redis`streams
    ensures forall host, kind ::
              SweptTo(old(redis.streams), redis.streams, retention, nowMs, daemonIds, works, |daemonIds|, host, kind)
    ensures forall host :: Sound(old(redis.streams), host) ==>
              KeepsInDays(old(redis.streams), redis.streams, retention, nowMs, host,
                          Reached(daemonIds, works, |daemonIds|, host, LOG),
                          Reached(daemonIds, works, |daemonIds|, host, METRIC))
    ensures redis.streams.Keys == old(redis.streams).Keys
  {
    for i := 0 to |daemonIds|
      invariant redis.streams.Keys == old(redis.streams).Keys
      invariant forall host, kind ::
                  SweptTo(old(redis.streams), redis.streams, retention, nowMs, daemonIds, works, i, host, kind)
    {
      var host := daemonIds[i];
      ghost var before, next := redis.streams, i + 1;
      TrimStream(redis, host, LOG, MinId(retention, LOG, nowMs), works(i, LOG));
      TrimStream(redis, host, METRIC, MinId(retention, METRIC, nowMs), works(i, METRIC));
      forall h, k
        ensures SweptTo(old(redis.streams), redis.streams, retention, nowMs, daemonIds, works, next, h, k)
      {
        SweepStep(old(redis.streams), before, redis.streams, retention, nowMs, daemonIds, works, i, h, k);
      }
    }
    forall host | Sound(old(redis.streams), host)
      ensures KeepsInDays(old(redis.streams), redis.streams, retention, nowMs, host,
                          Reached(daemonIds, works, |daemonIds|, host, LOG),
                          Reached(daemonIds, works, |daemonIds|, host, METRIC))
    {
      SweptExactly(old(redis.streams), redis.streams, retention, nowMs, daemonIds, works, host);
    }
  }
}
