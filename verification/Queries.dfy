/** One page of one kind (queries.py). */
module Queries {
  import opened Wrappers
  import opened RedisKeys
  import opened Streams
  import opened RedisStore
  import opened Records

  datatype Hit = Hit(id: StreamId, record: Record)

  datatype Page = Page(hits: seq<Hit>, next: Option<StreamId>)

  // `entries[-1]` on an empty list.
  datatype FetchError = IndexError

  predicate Decodes(codec: Codec, e: Entry) {
    e.data.Some? && codec.decode(e.data.value).Some?
  }

  // The entries of a raw page that carry a record, in order.
  function Hits(codec: Codec, raw: seq<Entry>): seq<Hit> {
    if raw == [] then []
    else
      var init, e := raw[..|raw| - 1], raw[|raw| - 1];
      if Decodes(codec, e) then Hits(codec, init) + [Hit(e.id, codec.decode(e.data.value).value)] else Hits(codec, init)
  }

  function RecordsOf(hits: seq<Hit>): seq<Record> {
    seq(|hits|, i requires 0 <= i < |hits| => hits[i].record)
  }

  // A cursor replaces the start of the range.
  function StartBound(start: nat, cursor: Option<StreamId>): Bound {
    if cursor.Some? then After(cursor.value) else From(StreamId(start, 0))
  }

  function Ceiling(end: nat): StreamId {
    StreamId(end, MAX_SEQ)
  }

  function PageOf(codec: Codec, raw: seq<Entry>, limit: nat): Result<Page, FetchError> {
    var hits := Hits(codec, raw);
    if |raw| != limit then Success(Page(hits, None))
    else if hits == [] then Failure(IndexError)
    else Success(Page(hits, Some(hits[|hits| - 1].id)))
  }

  function Fetch(codec: Codec, s: Stream, start: nat, end: nat, cursor: Option<StreamId>, limit: nat)
    : Result<Page, FetchError>
  {
    PageOf(codec, XRange(s, StartBound(start, cursor), Ceiling(end), limit), limit)
  }

  // A hit the range asks for: an entry of the stream that decodes to it, stamped no later than
  // `end`, and behind the cursor or, without one, no earlier than `start`.
  ghost predicate Answers(codec: Codec, s: Stream, start: nat, end: nat, cursor: Option<StreamId>, h: Hit) {
    && h.id.ms <= end
    && (match cursor case None => h.id.ms >= start case Some(last) => Before(last, h.id))
    && exists e :: e in s.entries && e.id == h.id && e.data.Some? && codec.decode(e.data.value) == Some(h.record)
  }

  lemma FetchAnswers(codec: Codec, s: Stream, start: nat, end: nat, cursor: Option<StreamId>, limit: nat)
    requires Valid(s) && limit >= 1
    ensures var page := Fetch(codec, s, start, end, cursor, limit);
            page.Success? ==>
              && |page.value.hits| <= limit
              && forall h :: h in page.value.hits ==> Answers(codec, s, start, end, cursor, h)
  {
    var raw := XRange(s, StartBound(start, cursor), Ceiling(end), limit);
    RangeMeaning(s.entries, StartBound(start, cursor), Ceiling(end));
    assert forall e :: e in raw ==> e in Range(s.entries, StartBound(start, cursor), Ceiling(end));
    HitsMeaning(codec, raw);
    HitsCount(codec, raw);
  }

  lemma {:induction false} HitsCount(codec: Codec, raw: seq<Entry>)
    ensures |Hits(codec, raw)| <= |raw|
  {
    if raw != [] {
      HitsCount(codec, raw[..|raw| - 1]);
    }
  }

  // `fetch_kind_page`: one page of the stream of one daemon and kind.
  method FetchKindPage(codec: Codec, redis: Redis, dockerHost: string, kind: Kind, start: nat, end: nat,
                       cursor: Option<StreamId>, limit: nat)
    returns (page: Result<Page, FetchError>)
    requires limit >= 1
    ensures page == Fetch(codec, StreamAt(redis.streams, StreamKey(dockerHost, kind)), start, end, cursor, limit)
    ensures Valid(StreamAt(redis.streams, StreamKey(dockerHost, kind))) && page.Success? ==>
              && |page.value.hits| <= limit
              && forall h :: h in page.value.hits ==>
                   Answers(codec, StreamAt(redis.streams, StreamKey(dockerHost, kind)), start, end, cursor, h)
  {
    if Valid(StreamAt(redis.streams, StreamKey(dockerHost, kind))) {
      FetchAnswers(codec, StreamAt(redis.streams, StreamKey(dockerHost, kind)), start, end, cursor, limit);
    }
    var raw := XRange(StreamAt(redis.streams, StreamKey(dockerHost, kind)), StartBound(start, cursor),
                      Ceiling(end), limit);
    var hits := DecodeEntries(codec, raw);
    if |raw| != limit {
      page := Success(Page(hits, None));
    } else if hits == [] {
      page := Failure(IndexError);
    } else {
      page := Success(Page(hits, Some(hits[|hits| - 1].id)));
    }
  }

  // Its loop over the raw entries.
  method DecodeEntries(codec: Codec, raw: seq<Entry>) returns (hits: seq<Hit>)
    ensures hits == Hits(codec, raw)
  {
    hits := [];
    for i := 0 to |raw|
      invariant hits == Hits(codec, raw[..i])
    {
      assert raw[..i + 1][..i] == raw[..i];
      if raw[i].data.Some? {
        var record := codec.decode(raw[i].data.value);
        if record.Some? {
          hits := hits + [Hit(raw[i].id, record.value)];
        }
      }
    }
    assert raw[..|raw|] == raw;
  }

  lemma {:induction false} HitsAppend(codec: Codec, a: seq<Entry>, b: seq<Entry>)
    ensures Hits(codec, a + b) == Hits(codec, a) + Hits(codec, b)
  {
    if b == [] {
      assert a + b == a;
    } else {
      var init := b[..|b| - 1];
      HitsAppend(codec, a, init);
      assert (a + b)[..|a + b| - 1] == a + init;
    }
  }

  /** Every hit stems from an entry of the raw page that decodes to it, and every such entry is hit. */
  lemma {:induction false} HitsMeaning(codec: Codec, raw: seq<Entry>)
    ensures forall h :: h in Hits(codec, raw) ==>
              exists e :: e in raw && Decodes(codec, e) && h == Hit(e.id, codec.decode(e.data.value).value)
    ensures forall e :: e in raw && Decodes(codec, e) ==>
              Hit(e.id, codec.decode(e.data.value).value) in Hits(codec, raw)
  {
    if raw != [] {
      var init, last := raw[..|raw| - 1], raw[|raw| - 1];
      HitsMeaning(codec, init);
      assert forall e :: e in raw <==> e in init || e == last by { assert raw == init + [last]; }
    }
  }

  /** A stream with a single entry that carries no data: fetching it with a page size of one raises. */
  lemma FetchCanRaise(codec: Codec)
    ensures var s := Stream([Entry(StreamId(1, 0), None)], StreamId(1, 0));
            Fetch(codec, s, 0, 5, None, 1) == Failure(IndexError)
  {
    var raw := [Entry(StreamId(1, 0), None)];
    assert raw[1..] == [] && raw[..0] == [] && [raw[0]] + [] == raw;
    assert Range(raw, From(StreamId(0, 0)), Ceiling(5)) == raw;
    assert Hits(codec, raw) == [];
  }
}
