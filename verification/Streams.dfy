/** Redis Streams, as far as log-sump uses them: XADD with automatic ids, exact XTRIM MINID
    and XRANGE with an inclusive or exclusive start. */
module Streams {
  import opened Wrappers

  datatype StreamId = StreamId(ms: nat, num: nat)

  // The largest sequence number within one millisecond: 2^64 - 1.
  const MAX_SEQ: nat := 0xFFFF_FFFF_FFFF_FFFF

  // The `data` field of an entry; some entries may not have one.
  datatype Entry = Entry(id: StreamId, data: Option<string>)

  datatype Stream = Stream(entries: seq<Entry>, lastId: StreamId)

  const NO_STREAM := Stream([], StreamId(0, 0))

  predicate Before(a: StreamId, b: StreamId) {
    a.ms < b.ms || (a.ms == b.ms && a.num < b.num)
  }

  predicate NotAfter(a: StreamId, b: StreamId) {
    !Before(b, a)
  }

  // Sequence numbers have 64 bits.
  predicate Fits(num: nat) {
    num < 0x1_0000_0000_0000_0000
  }

  ghost predicate Ascending(entries: seq<Entry>) {
    forall i, j :: 0 <= i < j < |entries| ==> Before(entries[i].id, entries[j].id)
  }

  ghost predicate Valid(s: Stream) {
    && Ascending(s.entries)
    && Fits(s.lastId.num)
    && (forall e :: e in s.entries ==> Fits(e.id.num) && NotAfter(e.id, s.lastId))
  }

  // ---------- XADD ----------

  // The automatic id at server time `now`: the clock unless it is behind the last id.
  function NextId(last: StreamId, now: nat): StreamId {
    if now > last.ms then StreamId(now, 0)
    else if last.num < MAX_SEQ then StreamId(last.ms, last.num + 1)
    else StreamId(last.ms + 1, 0)
  }

  function Added(s: Stream, data: string, now: nat): Stream {
    var id := NextId(s.lastId, now);
    Stream(s.entries + [Entry(id, Some(data))], id)
  }

  /** The automatic id is the least one above the last id that does not lag behind the clock. */
  lemma NextIdIsLeast(last: StreamId, now: nat, id: StreamId)
    requires Fits(id.num) && Fits(last.num)
    ensures Before(last, id) && id.ms >= now <==> NotAfter(NextId(last, now), id)
  {
  }

  lemma AddedValid(s: Stream, data: string, now: nat)
    requires Valid(s)
    ensures Valid(Added(s, data, now))
    ensures Before(s.lastId, NextId(s.lastId, now)) && NextId(s.lastId, now).ms >= now
  {
  }

  // ---------- XTRIM MINID ----------

  // The walk from the oldest entry that drops everything below `minMs`.
  function TrimEntries(entries: seq<Entry>, minMs: int): seq<Entry> {
    if entries != [] && entries[0].id.ms < minMs then TrimEntries(entries[1..], minMs) else entries
  }

  function Trimmed(s: Stream, minMs: int): Stream {
    s.(entries := TrimEntries(s.entries, minMs))
  }

  /** The walk stops at the right place: what is left is a suffix, and it is exactly the
      entries stamped at `minMs` or later. */
  lemma {:induction false} TrimIsExact(entries: seq<Entry>, minMs: int)
    requires Ascending(entries)
    ensures var kept := TrimEntries(entries, minMs);
            && |kept| <= |entries| && kept == entries[|entries| - |kept|..]
            && (forall e :: e in kept <==> e in entries && e.id.ms >= minMs)
  {
    if entries != [] && entries[0].id.ms < minMs {
      TrimIsExact(entries[1..], minMs);
      assert forall e :: e in entries <==> e == entries[0] || e in entries[1..];
    }
  }

  /** Two trims act as one at the larger bound. */
  lemma {:induction false} TrimTwice(entries: seq<Entry>, a: int, b: int)
    requires Ascending(entries)
    ensures TrimEntries(TrimEntries(entries, a), b) == TrimEntries(entries, if a < b then b else a)
  {
    if entries != [] && entries[0].id.ms < a {
      TrimTwice(entries[1..], a, b);
    } else if entries != [] && entries[0].id.ms < b {
      assert TrimEntries(entries, a) == entries;
    }
  }

  lemma TrimmedValid(s: Stream, minMs: int)
    requires Valid(s)
    ensures Valid(Trimmed(s, minMs))
  {
    TrimIsExact(s.entries, minMs);
  }

  // ---------- XRANGE ----------

  datatype Bound = From(id: StreamId) | After(id: StreamId)

  predicate InRange(id: StreamId, start: Bound, end: StreamId) {
    && (match start case From(low) => NotAfter(low, id) case After(low) => Before(low, id))
    && NotAfter(id, end)
  }

  function Range(entries: seq<Entry>, start: Bound, end: StreamId): seq<Entry> {
    if entries == [] then []
    else (if InRange(entries[0].id, start, end) then [entries[0]] else []) + Range(entries[1..], start, end)
  }

  function XRange(s: Stream, start: Bound, end: StreamId, count: nat): seq<Entry> {
    var all := Range(s.entries, start, end);
    if |all| <= count then all else all[..count]
  }

  lemma {:induction false} RangeMeaning(entries: seq<Entry>, start: Bound, end: StreamId)
    requires Ascending(entries)
    ensures Ascending(Range(entries, start, end))
    ensures forall e :: e in Range(entries, start, end) <==> e in entries && InRange(e.id, start, end)
  {
    if entries != [] {
      var rest := Range(entries[1..], start, end);
      RangeMeaning(entries[1..], start, end);
      assert forall e :: e in entries <==> e == entries[0] || e in entries[1..];
      assert forall e :: e in rest ==> Before(entries[0].id, e.id);
      assert forall i :: 0 <= i < |rest| ==> rest[i] in rest;
    }
  }

  /** Ascending entries are determined by which ones they are. */
  lemma {:induction false} AscendingUnique(a: seq<Entry>, b: seq<Entry>)
    requires Ascending(a) && Ascending(b) && forall e :: e in a <==> e in b
    ensures a == b
  {
    assert a == [] || a[0] in a;
    assert b == [] || b[0] in b;
    if a != [] && b != [] {
      assert a[0] in b && b[0] in a;
      assert a[0] == b[0];
      forall e
        ensures e in a[1..] <==> e in b[1..]
      {
        assert e in a[1..] ==> e in a && e != a[0];
        assert e in b[1..] ==> e in b && e != b[0];
      }
      AscendingUnique(a[1..], b[1..]);
    }
  }

  /** Resuming after the p-th entry of a range yields the rest of the range. */
  lemma RangeResumes(entries: seq<Entry>, start: Bound, end: StreamId, p: nat)
    requires Ascending(entries) && 0 < p <= |Range(entries, start, end)|
    ensures var all := Range(entries, start, end);
            Range(entries, After(all[p - 1].id), end) == all[p..]
  {
    var all := Range(entries, start, end);
    var low := all[p - 1];
    var rest := Range(entries, After(low.id), end);
    RangeMeaning(entries, start, end);
    RangeMeaning(entries, After(low.id), end);
    assert low in all;
    forall e
      ensures e in rest <==> e in all[p..]
    {
      if e in rest {
        assert e in all;
        var i :| 0 <= i < |all| && all[i] == e;
        assert i >= p;
        assert all[p..][i - p] == e;
      }
      if e in all[p..] {
        var i :| p <= i < |all| && all[i] == e;
        assert e in all && Before(low.id, e.id);
      }
    }
    AscendingUnique(rest, all[p..]);
  }

  // ---------- How a stream can change between two looks at it ----------

  // Entries may have been trimmed away, and newer ones added.
  ghost predicate Evolves(s: Stream, t: Stream) {
    && Valid(s) && Valid(t)
    && NotAfter(s.lastId, t.lastId)
    && (forall e :: e in t.entries ==> e in s.entries || Before(s.lastId, e.id))
  }

  lemma AddEvolves(s: Stream, data: string, now: nat)
    requires Valid(s)
    ensures Evolves(s, Added(s, data, now))
  {
  }

  lemma TrimEvolves(s: Stream, minMs: int)
    requires Valid(s)
    ensures Evolves(s, Trimmed(s, minMs))
  {
    TrimmedValid(s, minMs);
    TrimIsExact(s.entries, minMs);
  }

  lemma EvolvesTransitive(s: Stream, t: Stream, u: Stream)
    requires Evolves(s, t) && Evolves(t, u)
    ensures Evolves(s, u)
  {
  }

  /** What is there at the beginning and at the end was there all along. */
  lemma PresentThroughout(s: Stream, t: Stream, u: Stream, e: Entry)
    requires Evolves(s, t) && Evolves(t, u)
    requires e in s.entries && e in u.entries
    ensures e in t.entries
  {
  }
}
