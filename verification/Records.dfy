/** The record schema (schema.py) and its JSON codec. */
module Records {
  import opened Wrappers
  import opened RedisKeys

  // `ts` is the instant in microseconds. The numeric fields of a metric are one opaque value.
  datatype Record =
    | LogRecord(dockerHost: string, containerName: string, containerId: string, ts: int, seqNo: int,
                stream: string, level: string, message: string, fields: map<string, string>, raw: string)
    | MetricRecord(dockerHost: string, containerName: string, containerId: string, ts: int, seqNo: int,
                   metricScope: string, readings: string, source: string)

  function KindOf(r: Record): (kind: Kind)
    ensures kind.LOG? <==> r.LogRecord?
  {
    if r.LogRecord? then LOG else METRIC
  }

  // `RecordAdapter`: parsing may fail; serialising does not.
  datatype Codec = Codec(decode: string -> Option<Record>, encode: Record -> string)

  ghost predicate ReadsBack(codec: Codec, r: Record) {
    codec.decode(codec.encode(r)) == Some(r)
  }

  // The records parsed from these texts can be serialised and parsed back.
  ghost predicate RoundTrips(codec: Codec, raws: seq<string>) {
    forall raw :: raw in raws && codec.decode(raw).Some? ==> ReadsBack(codec, codec.decode(raw).value)
  }

  // Less than that: once serialised, they can be parsed at all.
  ghost predicate Reparses(codec: Codec, raws: seq<string>) {
    forall raw :: raw in raws && codec.decode(raw).Some? ==>
      codec.decode(codec.encode(codec.decode(raw).value)).Some?
  }
}
