/** The part of the Redis keyspace log-server works on: the ingest list and the streams. */
module RedisStore {
  import opened Streams

  type Store = map<string, Stream>

  // A key that was never written reads as an empty stream.
  function StreamAt(store: Store, key: string): Stream {
    if key in store then store[key] else NO_STREAM
  }

  function WithAdded(store: Store, key: string, data: string, now: nat): Store {
    store[key := Added(StreamAt(store, key), data, now)]
  }

  // Trimming a key that does not exist creates nothing.
  function WithTrimmed(store: Store, key: string, minMs: int): Store {
    if key in store then store[key := Trimmed(store[key], minMs)] else store
  }

  class Redis {
    var ingest: seq<string>
    var streams: Store

    constructor ()
      ensures ingest == [] && streams == map[]
    {
      ingest, streams := [], map[];
    }

    method LPop(count: nat) returns (popped: seq<string>)
      modifies this`ingest
      ensures popped + ingest == old(ingest)
      ensures |popped| == if |old(ingest)| < count then |old(ingest)| else count
    {
      var n := if |ingest| < count then |ingest| else count;
      popped, ingest := ingest[..n], ingest[n..];
    }

    method XAdd(key: string, data: string, now: nat)
      modifies this`streams
      ensures streams == WithAdded(old(streams), key, data, now)
    {
      streams := streams[key := Added(StreamAt(streams, key), data, now)];
    }

    method XTrim(key: string, minMs: int)
      modifies this`streams
      ensures streams == WithTrimmed(old(streams), key, minMs)
    {
      if key in streams {
        streams := streams[key := Trimmed(streams[key], minMs)];
      }
    }
  }
}
