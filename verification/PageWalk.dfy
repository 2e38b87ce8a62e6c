/** A client walking the pages of one kind: it passes every `next_cursor` back until it is
    null, over an unchanged stream and over one that changes between the fetches. */
module PageWalk {
  import opened Wrappers
  import opened Streams
  import opened Records
  import opened Queries

  function HitOf(codec: Codec, e: Entry): Hit
    requires Decodes(codec, e)
  {
    Hit(e.id, codec.decode(e.data.value).value)
  }

  // Everything a walk still has ahead of it.
  function Ahead(s: Stream, start: nat, end: nat, cursor: Option<StreamId>): seq<Entry> {
    Range(s.entries, StartBound(start, cursor), Ceiling(end))
  }

  // How far into a raw page its cursor points: just past the last entry that decodes.
  function Progress(codec: Codec, raw: seq<Entry>): nat {
    if raw == [] then 0
    else if Decodes(codec, raw[|raw| - 1]) then |raw|
    else Progress(codec, raw[..|raw| - 1])
  }

  lemma {:induction false} ProgressMeaning(codec: Codec, raw: seq<Entry>)
    ensures var p := Progress(codec, raw);
            && p <= |raw|
            && (forall i :: p <= i < |raw| ==> !Decodes(codec, raw[i]))
            && (p > 0 ==> Decodes(codec, raw[p - 1]))
            && Hits(codec, raw) == Hits(codec, raw[..p])
            && (p > 0 ==>
                  Hits(codec, raw) != [] && Hits(codec, raw)[|Hits(codec, raw)| - 1] == HitOf(codec, raw[p - 1]))
            && (p == 0 ==> Hits(codec, raw) == [])
  {
    if raw != [] {
      var init := raw[..|raw| - 1];
      if Decodes(codec, raw[|raw| - 1]) {
        assert raw[..|raw|] == raw;
      } else {
        ProgressMeaning(codec, init);
        assert init[..Progress(codec, init)] == raw[..Progress(codec, init)];
      }
    }
  }

  /** What one fetch says: it fails exactly on a full page of undecodable entries; otherwise
      it returns the hits of what it passed, and its cursor leaves precisely the rest ahead. */
  lemma FetchMeaning(codec: Codec, s: Stream, start: nat, end: nat, cursor: Option<StreamId>, limit: nat)
    requires Valid(s) && limit >= 1
    ensures var ahead := Ahead(s, start, end, cursor);
            match Fetch(codec, s, start, end, cursor, limit)
            case Failure(_) => limit <= |ahead| && forall i :: 0 <= i < limit ==> !Decodes(codec, ahead[i])
            case Success(Page(hits, None)) => |ahead| < limit && hits == Hits(codec, ahead)
            case Success(Page(hits, Some(next))) =>
              var p := Progress(codec, ahead[..limit]);
              && 1 <= p <= limit <= |ahead|
              && next == ahead[p - 1].id
              && hits == Hits(codec, ahead[..p])
              && Ahead(s, start, end, Some(next)) == ahead[p..]
  {
    var ahead := Ahead(s, start, end, cursor);
    var raw := XRange(s, StartBound(start, cursor), Ceiling(end), limit);
    ProgressMeaning(codec, raw);
    if |ahead| >= limit {
      assert raw == ahead[..limit];
      var p := Progress(codec, raw);
      if p > 0 {
        assert raw[..p] == ahead[..p];
        RangeResumes(s.entries, StartBound(start, cursor), Ceiling(end), p);
      }
    }
  }

  // ---------- An unchanged stream ----------

  datatype Walked = Walked(hits: seq<Hit>, fetches: nat)

  function Walk(codec: Codec, s: Stream, start: nat, end: nat, cursor: Option<StreamId>, limit: nat)
    : Result<Walked, FetchError>
    requires Valid(s) && limit >= 1
    decreases |Ahead(s, start, end, cursor)|
  {
    FetchMeaning(codec, s, start, end, cursor, limit);
    match Fetch(codec, s, start, end, cursor, limit)
    case Failure(error) => Failure(error)
    case Success(Page(hits, None)) => Success(Walked(hits, 1))
    case Success(Page(hits, Some(next))) =>
      match Walk(codec, s, start, end, Some(next), limit)
      case Failure(error) => Failure(error)
      case Success(rest) => Success(Walked(hits + rest.hits, 1 + rest.fetches))
  }

  // The same walk seen from the entries it has ahead.
  function ListWalk(codec: Codec, ahead: seq<Entry>, limit: nat): Result<Walked, FetchError>
    requires limit >= 1
  {
    if |ahead| < limit then Success(Walked(Hits(codec, ahead), 1))
    else
      ProgressMeaning(codec, ahead[..limit]);
      var p := Progress(codec, ahead[..limit]);
      if p == 0 then Failure(IndexError)
      else
        match ListWalk(codec, ahead[p..], limit)
        case Failure(error) => Failure(error)
        case Success(rest) => Success(Walked(Hits(codec, ahead[..p]) + rest.hits, 1 + rest.fetches))
  }

  lemma {:induction false} WalkIsListWalk(codec: Codec, s: Stream, start: nat, end: nat, cursor: Option<StreamId>,
                                          limit: nat)
    requires Valid(s) && limit >= 1
    ensures Walk(codec, s, start, end, cursor, limit) == ListWalk(codec, Ahead(s, start, end, cursor), limit)
    decreases |Ahead(s, start, end, cursor)|
  {
    var ahead := Ahead(s, start, end, cursor);
    FetchMeaning(codec, s, start, end, cursor, limit);
    match Fetch(codec, s, start, end, cursor, limit) {
      case Failure(_) => ProgressMeaning(codec, ahead[..limit]);
      case Success(Page(hits, None)) =>
      case Success(Page(hits, Some(next))) => WalkIsListWalk(codec, s, start, end, Some(next), limit);
    }
  }

  // `limit` undecodable entries in a row.
  ghost predicate Hole(codec: Codec, entries: seq<Entry>, limit: nat) {
    exists at: nat :: HoleAt(codec, entries, limit, at)
  }

  ghost predicate HoleAt(codec: Codec, entries: seq<Entry>, limit: nat, at: nat) {
    at + limit <= |entries| && forall i :: at <= i < at + limit ==> !Decodes(codec, entries[i])
  }

  // Moving past a decodable entry of the first page skips no hole.
  lemma HoleAfterPage(codec: Codec, ahead: seq<Entry>, limit: nat, p: nat)
    requires 1 <= p <= limit <= |ahead| && Decodes(codec, ahead[p - 1])
    ensures Hole(codec, ahead, limit) <==> Hole(codec, ahead[p..], limit)
  {
    if Hole(codec, ahead, limit) {
      var at: nat :| HoleAt(codec, ahead, limit, at);
      assert at >= p;
      assert HoleAt(codec, ahead[p..], limit, at - p);
    }
    if Hole(codec, ahead[p..], limit) {
      var at: nat :| HoleAt(codec, ahead[p..], limit, at);
      assert forall i :: at + p <= i < at + p + limit ==> ahead[i] == ahead[p..][i - p];
      assert HoleAt(codec, ahead, limit, at + p);
    }
  }

  lemma {:induction false} ListWalkIsComplete(codec: Codec, ahead: seq<Entry>, limit: nat)
    requires limit >= 1
    ensures ListWalk(codec, ahead, limit).Success? <==> !Hole(codec, ahead, limit)
    ensures ListWalk(codec, ahead, limit).Success? ==> ListWalk(codec, ahead, limit).value.hits == Hits(codec, ahead)
  {
    if |ahead| >= limit {
      ProgressMeaning(codec, ahead[..limit]);
      var p := Progress(codec, ahead[..limit]);
      if p == 0 {
        assert HoleAt(codec, ahead, limit, 0);
      } else {
        ListWalkIsComplete(codec, ahead[p..], limit);
        HoleAfterPage(codec, ahead, limit, p);
        HitsAppend(codec, ahead[..p], ahead[p..]);
        assert ahead[..p] + ahead[p..] == ahead;
      }
    }
  }

  /** A walk over an unchanged stream succeeds exactly if there are nowhere `limit` undecodable
      entries in a row, and then it returns every decodable entry in range, once, in order.
      (queries.py:84 raises otherwise.) */
  lemma WalkIsComplete(codec: Codec, s: Stream, start: nat, end: nat, cursor: Option<StreamId>, limit: nat)
    requires Valid(s) && limit >= 1
    ensures var ahead := Ahead(s, start, end, cursor);
            var walk := Walk(codec, s, start, end, cursor, limit);
            && (walk.Success? <==> !Hole(codec, ahead, limit))
            && (walk.Success? ==> walk.value.hits == Hits(codec, ahead))
  {
    WalkIsListWalk(codec, s, start, end, cursor, limit);
    ListWalkIsComplete(codec, Ahead(s, start, end, cursor), limit);
  }

  // The entries stamped within a time range, both ends included.
  function Within(entries: seq<Entry>, start: nat, end: nat): seq<Entry> {
    if entries == [] then []
    else (if start <= entries[0].id.ms <= end then [entries[0]] else []) + Within(entries[1..], start, end)
  }

  lemma {:induction false} RangeIsWithin(entries: seq<Entry>, start: nat, end: nat)
    requires forall e :: e in entries ==> Fits(e.id.num)
    ensures Range(entries, From(StreamId(start, 0)), Ceiling(end)) == Within(entries, start, end)
  {
    if entries != [] {
      assert entries[0] in entries;
      RangeIsWithin(entries[1..], start, end);
    }
  }

  /** In terms of time: a walk from the start of a range returns exactly the decodable entries
      stamped within it, once, in order. */
  lemma WalkIsTimely(codec: Codec, s: Stream, start: nat, end: nat, limit: nat)
    requires Valid(s) && limit >= 1
    ensures var walk := Walk(codec, s, start, end, None, limit);
            && (walk.Success? <==> !Hole(codec, Within(s.entries, start, end), limit))
            && (walk.Success? ==> walk.value.hits == Hits(codec, Within(s.entries, start, end)))
  {
    WalkIsComplete(codec, s, start, end, None, limit);
    RangeIsWithin(s.entries, start, end);
  }

  /** With everything decodable, a walk takes one fetch per full page and one more. */
  lemma WalkFetches(codec: Codec, s: Stream, start: nat, end: nat, cursor: Option<StreamId>, limit: nat)
    requires Valid(s) && limit >= 1
    requires forall e :: e in Ahead(s, start, end, cursor) ==> Decodes(codec, e)
    ensures var walk := Walk(codec, s, start, end, cursor, limit);
            walk.Success? && walk.value.fetches == |Ahead(s, start, end, cursor)| / limit + 1
  {
    WalkIsListWalk(codec, s, start, end, cursor, limit);
    ListWalkFetches(codec, Ahead(s, start, end, cursor), limit);
  }

  lemma {:induction false} ListWalkFetches(codec: Codec, ahead: seq<Entry>, limit: nat)
    requires limit >= 1 && forall e :: e in ahead ==> Decodes(codec, e)
    ensures ListWalk(codec, ahead, limit).Success?
    ensures ListWalk(codec, ahead, limit).value.fetches == |ahead| / limit + 1
  {
    if |ahead| >= limit {
      FullPage(codec, ahead, limit);
      ListWalkFetches(codec, ahead[limit..], limit);
      OneMorePage(|ahead|, limit);
    } else {
      QuotientUnique(|ahead|, limit, 0, |ahead|);
    }
  }

  lemma FullPage(codec: Codec, ahead: seq<Entry>, limit: nat)
    requires 1 <= limit <= |ahead| && forall e :: e in ahead ==> Decodes(codec, e)
    ensures Progress(codec, ahead[..limit]) == limit
    ensures forall e :: e in ahead[limit..] ==> Decodes(codec, e)
  {
  }

  lemma OneMorePage(n: nat, limit: nat)
    requires 1 <= limit <= n
    ensures n / limit == (n - limit) / limit + 1
  {
    var q, r := (n - limit) / limit, (n - limit) % limit;
    DivMod(n - limit, limit);
    MulMinus(q + 1, 1, limit);
    QuotientUnique(n, limit, q + 1, r);
  }

  lemma QuotientUnique(n: nat, d: nat, q: nat, r: nat)
    requires r < d && n == q * d + r
    ensures n / d == q
  {
    var k := n / d;
    DivMod(n, d);
    MulMinus(k, q, d);
    MulMinus(q, k, d);
    if k > q {
      MulAtLeast(k - q, d);
    } else if k < q {
      MulAtLeast(q - k, d);
    }
  }

  lemma DivMod(n: nat, d: nat)
    requires d > 0
    ensures n == (n / d) * d + n % d && 0 <= n % d < d
  {
  }

  lemma MulMinus(a: int, b: int, d: int)
    ensures (a - b) * d == a * d - b * d
  {
  }

  lemma MulAtLeast(x: int, d: nat)
    requires x >= 1
    ensures x * d >= d
  {
  }

  // ---------- A stream that changes between fetches ----------

  // The walk whose i-th fetch meets `stores[i]`; None unless the last of them ends it.
  function WalkOver(codec: Codec, stores: seq<Stream>, start: nat, end: nat, cursor: Option<StreamId>, limit: nat)
    : Option<seq<Hit>>
  {
    if stores == [] then None
    else
      match Fetch(codec, stores[0], start, end, cursor, limit)
      case Failure(_) => None
      case Success(Page(hits, None)) => if |stores| == 1 then Some(hits) else None
      case Success(Page(hits, next)) =>
        match WalkOver(codec, stores[1..], start, end, next, limit)
        case None => None
        case Some(rest) => Some(hits + rest)
  }

  ghost predicate AscendingHits(hits: seq<Hit>) {
    forall i, j :: 0 <= i < j < |hits| ==> Before(hits[i].id, hits[j].id)
  }

  // The hit stands for an entry in range that some fetch of the walk met.
  ghost predicate Stems(codec: Codec, stores: seq<Stream>, start: Bound, end: StreamId, h: Hit) {
    exists i, e :: 0 <= i < |stores| && StemsFrom(codec, stores[i], start, end, h, e)
  }

  ghost predicate StemsFrom(codec: Codec, s: Stream, start: Bound, end: StreamId, h: Hit, e: Entry) {
    e in s.entries && InRange(e.id, start, end) && Decodes(codec, e) && h == HitOf(codec, e)
  }

  lemma {:induction false} HitsAscend(codec: Codec, raw: seq<Entry>)
    requires Ascending(raw)
    ensures AscendingHits(Hits(codec, raw))
    ensures forall h :: h in Hits(codec, raw) ==> exists e :: e in raw && Decodes(codec, e) && h == HitOf(codec, e)
    ensures forall e :: e in raw && Decodes(codec, e) ==> HitOf(codec, e) in Hits(codec, raw)
  {
    HitsMeaning(codec, raw);
    if raw != [] {
      var init, last := raw[..|raw| - 1], raw[|raw| - 1];
      HitsAscend(codec, init);
      assert forall h :: h in Hits(codec, init) ==> Before(h.id, last.id);
      assert forall i :: 0 <= i < |Hits(codec, init)| ==> Hits(codec, init)[i] in Hits(codec, init);
    }
  }

  // How much of what was ahead a page has passed: up to its cursor, or all of it.
  lemma PageEnd(codec: Codec, s: Stream, start: nat, end: nat, cursor: Option<StreamId>, limit: nat) returns (p: nat)
    requires Valid(s) && limit >= 1 && Fetch(codec, s, start, end, cursor, limit).Success?
    ensures var page := Fetch(codec, s, start, end, cursor, limit).value;
            var ahead := Ahead(s, start, end, cursor);
            && p <= |ahead| && page.hits == Hits(codec, ahead[..p])
            && if page.next.Some? then p > 0 && page.next.value == ahead[p - 1].id else p == |ahead|
  {
    var ahead := Ahead(s, start, end, cursor);
    FetchMeaning(codec, s, start, end, cursor, limit);
    p := if |ahead| < limit then |ahead| else Progress(codec, ahead[..limit]);
    assert ahead[..|ahead|] == ahead;
  }

  // The hits of what was passed, against all that was ahead.
  ghost predicate PageFits(codec: Codec, ahead: seq<Entry>, hits: seq<Hit>, next: Option<StreamId>) {
    && AscendingHits(hits)
    && (forall h :: h in hits ==> exists e :: e in ahead && Decodes(codec, e) && h == HitOf(codec, e))
    && (next.Some? ==>
          (exists e :: e in ahead && e.id == next.value) && forall h :: h in hits ==> NotAfter(h.id, next.value))
    && (forall e :: e in ahead && Decodes(codec, e) ==>
          HitOf(codec, e) in hits || (next.Some? && Before(next.value, e.id)))
  }

  lemma PassedFits(codec: Codec, ahead: seq<Entry>, p: nat, next: Option<StreamId>)
    requires Ascending(ahead) && p <= |ahead|
    requires if next.Some? then p > 0 && next.value == ahead[p - 1].id else p == |ahead|
    ensures PageFits(codec, ahead, Hits(codec, ahead[..p]), next)
  {
    if next.Some? {
      PrefixHits(codec, ahead, p);
      assert ahead[p - 1] in ahead;
    } else {
      assert ahead[..p] == ahead;
      HitsAscend(codec, ahead);
    }
  }

  // One page of a walk: its hits are entries in range up to the cursor, and the decodable
  // entries in range are hits or still ahead of the cursor.
  lemma PageMeaning(codec: Codec, s: Stream, start: nat, end: nat, cursor: Option<StreamId>, limit: nat)
    requires Valid(s) && limit >= 1 && Fetch(codec, s, start, end, cursor, limit).Success?
    ensures var page := Fetch(codec, s, start, end, cursor, limit).value;
            var low, high := StartBound(start, cursor), Ceiling(end);
            && AscendingHits(page.hits)
            && (forall h :: h in page.hits ==> exists e :: StemsFrom(codec, s, low, high, h, e))
            && (page.next.Some? ==> InRange(page.next.value, low, high)
                                    && forall h :: h in page.hits ==> NotAfter(h.id, page.next.value))
            && (forall e :: e in s.entries && InRange(e.id, low, high) && Decodes(codec, e) ==>
                  || HitOf(codec, e) in page.hits
                  || (page.next.Some? && Before(page.next.value, e.id)))
  {
    var ahead := Ahead(s, start, end, cursor);
    var page := Fetch(codec, s, start, end, cursor, limit).value;
    RangeMeaning(s.entries, StartBound(start, cursor), Ceiling(end));
    var p := PageEnd(codec, s, start, end, cursor, limit);
    PassedFits(codec, ahead, p, page.next);
    forall h | h in page.hits
      ensures exists e :: StemsFrom(codec, s, StartBound(start, cursor), Ceiling(end), h, e)
    {
      var e :| e in ahead && Decodes(codec, e) && h == HitOf(codec, e);
      assert StemsFrom(codec, s, StartBound(start, cursor), Ceiling(end), h, e);
    }
  }

  // The hits of the entries up to the p-th one.
  lemma PrefixHits(codec: Codec, ahead: seq<Entry>, p: nat)
    requires Ascending(ahead) && 1 <= p <= |ahead|
    ensures var hits, next := Hits(codec, ahead[..p]), ahead[p - 1].id;
            && AscendingHits(hits)
            && (forall h :: h in hits ==>
                  NotAfter(h.id, next) && exists e :: e in ahead && Decodes(codec, e) && h == HitOf(codec, e))
            && (forall e :: e in ahead && Decodes(codec, e) ==> HitOf(codec, e) in hits || Before(next, e.id))
  {
    PrefixUpTo(ahead, p);
    HitsAscend(codec, ahead[..p]);
  }

  lemma PrefixUpTo(entries: seq<Entry>, p: nat)
    requires Ascending(entries) && 1 <= p <= |entries|
    ensures forall e :: e in entries[..p] <==> e in entries && NotAfter(e.id, entries[p - 1].id)
  {
  }

  // The walk from a cursor: what it returns lies behind the cursor, ascends, and stems from
  // what was there; what was there throughout is returned.
  lemma {:induction false} WalkOverMeaning(codec: Codec, stores: seq<Stream>, start: nat, end: nat,
                                           cursor: Option<StreamId>, limit: nat)
    requires limit >= 1 && forall s :: s in stores ==> Valid(s)
    requires WalkOver(codec, stores, start, end, cursor, limit).Some?
    ensures var hits := WalkOver(codec, stores, start, end, cursor, limit).value;
            var low, high := StartBound(start, cursor), Ceiling(end);
            && AscendingHits(hits)
            && (forall h :: h in hits ==> InRange(h.id, low, high) && Stems(codec, stores, low, high, h))
            && (forall e :: && (forall s :: s in stores ==> e in s.entries)
                            && InRange(e.id, low, high) && Decodes(codec, e)
                  ==> HitOf(codec, e) in hits)
  {
    var low, high := StartBound(start, cursor), Ceiling(end);
    var s := stores[0];
    var page := Fetch(codec, s, start, end, cursor, limit).value;
    PageMeaning(codec, s, start, end, cursor, limit);
    forall h | h in page.hits
      ensures InRange(h.id, low, high) && Stems(codec, stores, low, high, h)
    {
      var e :| StemsFrom(codec, s, low, high, h, e);
      assert StemsFrom(codec, stores[0], low, high, h, e);
    }
    if page.next.Some? {
      var rest := WalkOver(codec, stores[1..], start, end, page.next, limit).value;
      WalkOverMeaning(codec, stores[1..], start, end, page.next, limit);
      var behind := StartBound(start, page.next);
      forall h | h in rest
        ensures InRange(h.id, low, high) && Stems(codec, stores, low, high, h)
      {
        var i, e :| 0 <= i < |stores[1..]| && StemsFrom(codec, stores[1..][i], behind, high, h, e);
        assert StemsFrom(codec, stores[i + 1], low, high, h, e);
      }
      forall e | (forall s :: s in stores ==> e in s.entries) && InRange(e.id, low, high) && Decodes(codec, e)
        ensures HitOf(codec, e) in page.hits + rest
      {
        assert s in stores && forall t :: t in stores[1..] ==> t in stores;
        assert HitOf(codec, e) !in page.hits ==> InRange(e.id, behind, high);
      }
      HitsConcatAscend(page.hits, rest, page.next.value);
    } else {
      assert s in stores;
    }
  }

  lemma HitsConcatAscend(a: seq<Hit>, b: seq<Hit>, mid: StreamId)
    requires AscendingHits(a) && AscendingHits(b)
    requires (forall h :: h in a ==> NotAfter(h.id, mid)) && (forall h :: h in b ==> Before(mid, h.id))
    ensures AscendingHits(a + b)
  {
  }

  // The hit stands for an entry stamped within the time range that some fetch of the walk met.
  ghost predicate Seen(codec: Codec, stores: seq<Stream>, start: nat, end: nat, h: Hit) {
    exists i, e :: 0 <= i < |stores| && SeenIn(codec, stores[i], start, end, h, e)
  }

  ghost predicate SeenIn(codec: Codec, s: Stream, start: nat, end: nat, h: Hit, e: Entry) {
    e in s.entries && start <= e.id.ms <= end && Decodes(codec, e) && h == HitOf(codec, e)
  }

  lemma StemsAreSeen(codec: Codec, stores: seq<Stream>, start: nat, end: nat)
    requires forall s :: s in stores ==> Valid(s)
    ensures forall h :: Stems(codec, stores, From(StreamId(start, 0)), Ceiling(end), h) ==>
              Seen(codec, stores, start, end, h)
    ensures forall s, e :: s in stores && e in s.entries && start <= e.id.ms <= end ==>
              InRange(e.id, From(StreamId(start, 0)), Ceiling(end))
  {
    forall h | Stems(codec, stores, From(StreamId(start, 0)), Ceiling(end), h)
      ensures Seen(codec, stores, start, end, h)
    {
      var i, e :| 0 <= i < |stores| && StemsFrom(codec, stores[i], From(StreamId(start, 0)), Ceiling(end), h, e);
      assert SeenIn(codec, stores[i], start, end, h, e);
    }
  }

  ghost predicate Evolving(stores: seq<Stream>) {
    (forall s :: s in stores ==> Valid(s)) && forall i :: 0 < i < |stores| ==> Evolves(stores[i - 1], stores[i])
  }

  lemma {:induction false} EvolvingFar(stores: seq<Stream>, i: nat, j: nat)
    requires Evolving(stores) && i <= j < |stores|
    ensures Evolves(stores[i], stores[j])
  {
    if i < j {
      EvolvingFar(stores, i, j - 1);
      EvolvesTransitive(stores[i], stores[j - 1], stores[j]);
    } else {
      assert stores[i] in stores;
    }
  }

  /** Paging while entries are added and trimmed: a complete walk never repeats or disorders
      ids, returns only what was in the stream at one of its fetches, and returns every
      decodable entry in range that was there at the first fetch and still at the last. */
  lemma WalkUnderChange(codec: Codec, stores: seq<Stream>, start: nat, end: nat, limit: nat)
    requires limit >= 1 && Evolving(stores)
    requires WalkOver(codec, stores, start, end, None, limit).Some?
    ensures var hits := WalkOver(codec, stores, start, end, None, limit).value;
            && AscendingHits(hits)
            && (forall h :: h in hits ==> Seen(codec, stores, start, end, h))
            && (forall e :: e in stores[0].entries && e in stores[|stores| - 1].entries
                            && start <= e.id.ms <= end && Decodes(codec, e)
                  ==> HitOf(codec, e) in hits)
  {
    WalkOverMeaning(codec, stores, start, end, None, limit);
    StemsAreSeen(codec, stores, start, end);
    forall e, s | e in stores[0].entries && e in stores[|stores| - 1].entries && s in stores
      ensures e in s.entries
    {
      var i :| 0 <= i < |stores| && stores[i] == s;
      EvolvingFar(stores, 0, i);
      EvolvingFar(stores, i, |stores| - 1);
      PresentThroughout(stores[0], s, stores[|stores| - 1], e);
    }
  }
}
