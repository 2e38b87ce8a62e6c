/** The Redis key formats (redis_keys.py). */
module RedisKeys {
  datatype Kind = LOG | METRIC

  const PREFIX := "logsump"
  const INGEST_LIST := PREFIX + ":ingest:v1"

  function KindValue(kind: Kind): string {
    match kind
    case LOG => "log"
    case METRIC => "metric"
  }

  function StreamKey(dockerHost: string, kind: Kind): string {
    PREFIX + ":stream:" + dockerHost + ":" + KindValue(kind)
  }

  function DaemonStatusKey(dockerHost: string): string {
    PREFIX + ":daemon:" + dockerHost + ":status"
  }

  // `digest` is the SHA-256 of the API key in hexadecimal.
  function AuthKey(digest: string): string {
    PREFIX + ":auth:" + digest
  }

  /** The keys as they are stored. */
  lemma KeyTexts(host: string, digest: string)
    ensures StreamKey(host, LOG) == "logsump:stream:" + host + ":log"
    ensures StreamKey(host, METRIC) == "logsump:stream:" + host + ":metric"
    ensures DaemonStatusKey(host) == "logsump:daemon:" + host + ":status"
    ensures AuthKey(digest) == "logsump:auth:" + digest
    ensures INGEST_LIST == "logsump:ingest:v1"
  {
    assert PREFIX + ":stream:" == "logsump:stream:";
    assert ":" + "log" == ":log" && ":" + "metric" == ":metric";
    assert StreamKey(host, LOG) == "logsump:stream:" + host + (":" + "log");
    assert StreamKey(host, METRIC) == "logsump:stream:" + host + (":" + "metric");
    assert PREFIX + ":daemon:" == "logsump:daemon:" && PREFIX + ":auth:" == "logsump:auth:";
  }

  // Where a stream key has its host, and the letter that tells its kind.
  lemma KeyParts(h: string, k: Kind)
    ensures var key := StreamKey(h, k);
            && |key| == 15 + |h| + 1 + |KindValue(k)|
            && key[15..15 + |h|] == h
            && key[|key| - 1] == if k.LOG? then 'g' else 'c'
  {
    var front, rest := PREFIX + ":stream:", ":" + KindValue(k);
    assert |front| == 15;
    assert StreamKey(h, k) == front + (h + rest);
    assert (front + (h + rest))[15..15 + |h|] == h;
  }

  /** Daemons and kinds never share a stream, even if a daemon id contains colons. */
  lemma StreamKeyInjective(h: string, k: Kind, g: string, j: Kind)
    ensures StreamKey(h, k) == StreamKey(g, j) <==> h == g && k == j
  {
    KeyParts(h, k);
    KeyParts(g, j);
  }

  /** A stream is never the ingest list, a status hash or an authentication set. */
  lemma StreamKeyIsNoOtherKey(h: string, k: Kind, g: string, digest: string)
    ensures StreamKey(h, k) != INGEST_LIST
    ensures StreamKey(h, k) != DaemonStatusKey(g)
    ensures StreamKey(h, k) != AuthKey(digest)
  {
    assert StreamKey(h, k)[8] == 's';
    assert INGEST_LIST[8] == 'i' && DaemonStatusKey(g)[8] == 'd' && AuthKey(digest)[8] == 'a';
  }
}
