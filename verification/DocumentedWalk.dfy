/** The walk over both kinds as docs/api.md describes it: keep asking for both kinds and pass back
    the cursors that are not null, until both are. A kind whose cursor is null starts over. */
module DocumentedWalk {
  import opened Wrappers
  import opened Streams
  import opened Records
  import opened Queries
  import opened PageWalk
  import opened Filters
  import opened RecordsEndpoint

  // Such a client: what it asks for, and the streams it meets, which do not change.
  datatype Client = Client(codec: Codec, sizes: PageSizes, logs: Stream, metrics: Stream, filters: Filters,
                           start: nat, end: nat, asked: Option<int>)

  ghost predicate Ready(c: Client) {
    Valid(c.logs) && Valid(c.metrics) && EffectiveLimit(c.asked, c.sizes) >= 1
  }

  datatype Progressed = Progressed(records: seq<Record>, log: Option<StreamId>, metric: Option<StreamId>)

  function NextResponse(c: Client, p: Progressed): Result<RecordsPage, RecordsError> {
    Respond(c.codec, c.sizes, c.logs, c.metrics,
            Request(LogsAndMetrics, c.filters, c.start, c.end, p.log, p.metric, c.asked))
  }

  // What the client has, and the cursors it holds, after `n` responses.
  function AfterRounds(c: Client, n: nat): Result<Progressed, RecordsError> {
    if n == 0 then Success(Progressed([], None, None))
    else
      match AfterRounds(c, n - 1)
      case Failure(error) => Failure(error)
      case Success(p) =>
        match NextResponse(c, p)
        case Failure(error) => Failure(error)
        case Success(page) => Success(Progressed(p.records + page.records, page.nextLog, page.nextMetric))
  }

  predicate Over(c: Client, n: nat) {
    n > 0 && AfterRounds(c, n).Success? && AfterRounds(c, n).value.log.None? && AfterRounds(c, n).value.metric.None?
  }

  // What the client has received when it is over.
  function Received(c: Client, n: nat): seq<Record>
    requires Over(c, n)
  {
    AfterRounds(c, n).value.records
  }

  // The first time both cursors are null.
  ghost predicate EndsAfter(c: Client, n: nat) {
    Over(c, n) && forall m :: 0 < m < n ==> !Over(c, m)
  }

  // ---------- The pages of one kind ----------

  ghost predicate NoHole(c: Client, s: Stream) {
    Valid(s) && EffectiveLimit(c.asked, c.sizes) >= 1
    && !HoleAhead(c.codec, s, c.start, c.end, At(None), EffectiveLimit(c.asked, c.sizes))
  }

  function PagesFrom(codec: Codec, s: Stream, start: nat, end: nat, cursor: Option<StreamId>, limit: nat)
    : (pages: seq<Page>)
    requires Valid(s) && limit >= 1 && !Hole(codec, Ahead(s, start, end, cursor), limit)
    ensures pages != []
    decreases |Ahead(s, start, end, cursor)|
  {
    PageGetsOn(codec, s, start, end, At(cursor), limit);
    var page := Fetch(codec, s, start, end, cursor, limit).value;
    if page.next.None? then [page] else [page] + PagesFrom(codec, s, start, end, page.next, limit)
  }

  // Each page is what a fetch returns for the cursor of the page before it, and only the last has none.
  lemma {:induction false} PagesMeaning(codec: Codec, s: Stream, start: nat, end: nat, cursor: Option<StreamId>,
                                        limit: nat, i: nat)
    requires Valid(s) && limit >= 1 && !Hole(codec, Ahead(s, start, end, cursor), limit)
    requires i < |PagesFrom(codec, s, start, end, cursor, limit)|
    ensures var pages := PagesFrom(codec, s, start, end, cursor, limit);
            && Fetch(codec, s, start, end, if i == 0 then cursor else pages[i - 1].next, limit) == Success(pages[i])
            && (pages[i].next.Some? <==> i < |pages| - 1)
    decreases i
  {
    PageGetsOn(codec, s, start, end, At(cursor), limit);
    if i > 0 {
      PagesMeaning(codec, s, start, end, PagesFrom(codec, s, start, end, cursor, limit)[0].next, limit, i - 1);
    }
  }

  // There are as many pages as a walk of this kind alone takes fetches.
  lemma {:induction false} PagesCount(codec: Codec, s: Stream, start: nat, end: nat, cursor: Option<StreamId>,
                                      limit: nat)
    requires Valid(s) && limit >= 1 && !Hole(codec, Ahead(s, start, end, cursor), limit)
    ensures var walk := Walk(codec, s, start, end, cursor, limit);
            walk.Success? && walk.value.fetches == |PagesFrom(codec, s, start, end, cursor, limit)|
    decreases |Ahead(s, start, end, cursor)|
  {
    PageGetsOn(codec, s, start, end, At(cursor), limit);
    var page := Fetch(codec, s, start, end, cursor, limit).value;
    if page.next.Some? {
      PagesCount(codec, s, start, end, page.next, limit);
    }
  }

  // ---------- What the pages hold ----------

  function PageMatches(f: Filters, page: Page): multiset<Record> {
    multiset(Matching(f, RecordsOf(page.hits)))
  }

  function FirstMatches(f: Filters, pages: seq<Page>, n: nat): multiset<Record>
    requires n <= |pages|
  {
    if n == 0 then multiset{} else FirstMatches(f, pages, n - 1) + PageMatches(f, pages[n - 1])
  }

  lemma {:induction false} FirstMatchesOfRest(f: Filters, page: Page, rest: seq<Page>, n: nat)
    requires n <= |rest|
    ensures FirstMatches(f, [page] + rest, n + 1) == PageMatches(f, page) + FirstMatches(f, rest, n)
  {
    if n > 0 {
      FirstMatchesOfRest(f, page, rest, n - 1);
      assert ([page] + rest)[n] == rest[n - 1];
    } else {
      assert FirstMatches(f, [page] + rest, 0) == multiset{};
    }
  }

  // All pages together hold all matches.
  lemma {:induction false} AllMatches(codec: Codec, s: Stream, f: Filters, start: nat, end: nat,
                                      cursor: Option<StreamId>, limit: nat)
    requires Valid(s) && limit >= 1 && !Hole(codec, Ahead(s, start, end, cursor), limit)
    ensures var pages := PagesFrom(codec, s, start, end, cursor, limit);
            FirstMatches(f, pages, |pages|) == multiset(Matching(f, RecordsAhead(codec, s, start, end, At(cursor))))
    decreases |Ahead(s, start, end, cursor)|
  {
    PageGetsOn(codec, s, start, end, At(cursor), limit);
    var page := Fetch(codec, s, start, end, cursor, limit).value;
    FilterConcat(Meets(f), RecordsOf(page.hits), RecordsAhead(codec, s, start, end, Onward(page.next)));
    if page.next.Some? {
      var rest := PagesFrom(codec, s, start, end, page.next, limit);
      AllMatches(codec, s, f, start, end, page.next, limit);
      FirstMatchesOfRest(f, page, rest, |rest|);
    } else {
      FirstMatchesOfRest(f, page, [], 0);
      assert [page] + [] == [page];
    }
  }

  // ---------- Going round ----------

  function Times(k: nat, m: multiset<Record>): multiset<Record> {
    if k == 0 then multiset{} else Times(k - 1, m) + m
  }

  // Going through `d` pages again and again: the page that comes after `n` of them, and how often
  // all of them have been gone through.
  function Phase(n: nat, d: nat): (i: nat)
    requires d > 0
    ensures i < d
  {
    if n == 0 || Phase(n - 1, d) + 1 == d then 0 else Phase(n - 1, d) + 1
  }

  function Laps(n: nat, d: nat): nat
    requires d > 0
  {
    if n == 0 then 0 else if Phase(n, d) == 0 then Laps(n - 1, d) + 1 else Laps(n - 1, d)
  }

  lemma {:induction false} PhaseMeaning(n: nat, d: nat)
    requires d > 0
    ensures n == Laps(n, d) * d + Phase(n, d) && Phase(n, d) == n % d
  {
    if n > 0 {
      PhaseMeaning(n - 1, d);
      MulMinus(Laps(n - 1, d) + 1, 1, d);
    }
    QuotientUnique(n, d, Laps(n, d), Phase(n, d));
    DivMod(n, d);
  }

  // After `n` responses: so many rounds of all the pages, and the first ones of another.
  function Collected(f: Filters, pages: seq<Page>, n: nat): multiset<Record>
    requires pages != []
  {
    Times(Laps(n, |pages|), FirstMatches(f, pages, |pages|)) + FirstMatches(f, pages, Phase(n, |pages|))
  }

  function CursorAfter(pages: seq<Page>, n: nat): Option<StreamId>
    requires pages != []
  {
    if Phase(n, |pages|) == 0 then None else pages[Phase(n, |pages|) - 1].next
  }

  // One more page: the next phase, and one more lap if that was the last page.
  lemma PhaseStep(n: nat, d: nat)
    requires d > 0
    ensures if Phase(n, d) + 1 == d then Phase(n + 1, d) == 0 && Laps(n + 1, d) == Laps(n, d) + 1
            else Phase(n + 1, d) == Phase(n, d) + 1 && Laps(n + 1, d) == Laps(n, d)
  {
  }

  lemma NextMatches(f: Filters, pages: seq<Page>, i: nat)
    requires i < |pages|
    ensures FirstMatches(f, pages, i + 1) == FirstMatches(f, pages, i) + PageMatches(f, pages[i])
  {
  }

  lemma OneMoreLap(k: nat, all: multiset<Record>, some: multiset<Record>, page: multiset<Record>)
    requires all == some + page
    ensures Times(k + 1, all) + multiset{} == (Times(k, all) + some) + page
  {
  }

  lemma CollectedGrows(f: Filters, pages: seq<Page>, n: nat)
    requires pages != []
    ensures Collected(f, pages, n + 1) == Collected(f, pages, n) + PageMatches(f, pages[Phase(n, |pages|)])
  {
    var d, i := |pages|, Phase(n, |pages|);
    PhaseStep(n, d);
    NextMatches(f, pages, i);
    if i + 1 == d {
      OneMoreLap(Laps(n, d), FirstMatches(f, pages, d), FirstMatches(f, pages, i), PageMatches(f, pages[i]));
    }
  }

  function Pages(c: Client, s: Stream): (pages: seq<Page>)
    requires NoHole(c, s)
    ensures pages != []
  {
    PagesFrom(c.codec, s, c.start, c.end, None, EffectiveLimit(c.asked, c.sizes))
  }

  // The next page of one kind, from the cursor the client holds.
  lemma NextPage(c: Client, s: Stream, n: nat)
    requires NoHole(c, s)
    ensures var pages := Pages(c, s);
            && Fetch(c.codec, s, c.start, c.end, CursorAfter(pages, n), EffectiveLimit(c.asked, c.sizes))
               == Success(pages[Phase(n, |pages|)])
            && pages[Phase(n, |pages|)].next == CursorAfter(pages, n + 1)
            && (CursorAfter(pages, n).None? <==> Phase(n, |pages|) == 0)
  {
    var pages := Pages(c, s);
    var i := Phase(n, |pages|);
    PagesMeaning(c.codec, s, c.start, c.end, None, EffectiveLimit(c.asked, c.sizes), i);
    if i > 0 {
      PagesMeaning(c.codec, s, c.start, c.end, None, EffectiveLimit(c.asked, c.sizes), i - 1);
    }
  }

  // The response to the cursors of both kinds after `n` responses.
  lemma OneRound(c: Client, n: nat)
    requires Ready(c) && NoHole(c, c.logs) && NoHole(c, c.metrics)
    ensures var logPages, metricPages := Pages(c, c.logs), Pages(c, c.metrics);
            var response := Respond(c.codec, c.sizes, c.logs, c.metrics,
                                    Request(LogsAndMetrics, c.filters, c.start, c.end,
                                            CursorAfter(logPages, n), CursorAfter(metricPages, n), c.asked));
            && response.Success?
            && response.value.nextLog == CursorAfter(logPages, n + 1)
            && response.value.nextMetric == CursorAfter(metricPages, n + 1)
            && multiset(response.value.records)
               == PageMatches(c.filters, logPages[Phase(n, |logPages|)])
                   + PageMatches(c.filters, metricPages[Phase(n, |metricPages|)])
  {
    var logPages, metricPages := Pages(c, c.logs), Pages(c, c.metrics);
    RoundMeaning(c.codec, c.sizes, c.logs, c.metrics, c.filters, c.start, c.end, c.asked,
                 At(CursorAfter(logPages, n)), At(CursorAfter(metricPages, n)));
    NextPage(c, c.logs, n);
    NextPage(c, c.metrics, n);
    TimelineMeaning(c.filters, logPages[Phase(n, |logPages|)].hits, metricPages[Phase(n, |metricPages|)].hits);
  }

  // Every kind goes round and round its own pages, regardless of the other.
  ghost predicate Around(c: Client, n: nat, p: Progressed, logPages: seq<Page>, metricPages: seq<Page>)
    requires logPages != [] && metricPages != []
  {
    && AfterRounds(c, n) == Success(p)
    && p.log == CursorAfter(logPages, n) && p.metric == CursorAfter(metricPages, n)
    && multiset(p.records) == Collected(c.filters, logPages, n) + Collected(c.filters, metricPages, n)
  }

  lemma AroundAtFirst(c: Client, logPages: seq<Page>, metricPages: seq<Page>)
    requires logPages != [] && metricPages != []
    ensures Around(c, 0, Progressed([], None, None), logPages, metricPages)
  {
  }

  ghost predicate PagesAre(c: Client, logPages: seq<Page>, metricPages: seq<Page>) {
    && Ready(c) && NoHole(c, c.logs) && NoHole(c, c.metrics)
    && logPages == Pages(c, c.logs) && metricPages == Pages(c, c.metrics)
  }

  lemma AroundGoesOn(c: Client, n: nat, p: Progressed, logPages: seq<Page>, metricPages: seq<Page>)
    returns (q: Progressed)
    requires PagesAre(c, logPages, metricPages)
    ensures Around(c, n, p, logPages, metricPages) ==> Around(c, n + 1, q, logPages, metricPages)
  {
    q := p;
    if Around(c, n, p, logPages, metricPages) {
      var response := NextResponse(c, p);
      OneRound(c, n);
      CollectedGrows(c.filters, logPages, n);
      CollectedGrows(c.filters, metricPages, n);
      q := Progressed(p.records + response.value.records, response.value.nextLog, response.value.nextMetric);
    }
  }

  lemma RoundsMeaning(c: Client, n: nat, logPages: seq<Page>, metricPages: seq<Page>) returns (p: Progressed)
    requires PagesAre(c, logPages, metricPages)
    ensures Around(c, n, p, logPages, metricPages)
  {
    p := Progressed([], None, None);
    AroundAtFirst(c, logPages, metricPages);
    for i := 0 to n
      invariant Around(c, i, p, logPages, metricPages)
    {
      p := AroundGoesOn(c, i, p, logPages, metricPages);
    }
  }

  predicate CommonMultiple(n: nat, a: nat, b: nat)
    requires a > 0 && b > 0
  {
    n > 0 && n % a == 0 && n % b == 0
  }

  lemma OverMeaning(c: Client, n: nat)
    requires Ready(c) && NoHole(c, c.logs) && NoHole(c, c.metrics)
    ensures Over(c, n) <==> CommonMultiple(n, |Pages(c, c.logs)|, |Pages(c, c.metrics)|)
  {
    var p := RoundsMeaning(c, n, Pages(c, c.logs), Pages(c, c.metrics));
    NextPage(c, c.logs, n);
    NextPage(c, c.metrics, n);
    PhaseMeaning(n, |Pages(c, c.logs)|);
    PhaseMeaning(n, |Pages(c, c.metrics)|);
  }

  // ---------- The theorems ----------

  // A response to cursors with a hole ahead has a cursor with that hole ahead.
  lemma HoleStaysAhead(c: Client, p: Progressed)
    requires Ready(c)
    ensures var limit := EffectiveLimit(c.asked, c.sizes);
            match NextResponse(c, p)
            case Failure(_) => true
            case Success(page) =>
              && (HoleAhead(c.codec, c.logs, c.start, c.end, At(p.log), limit) ==>
                    page.nextLog.Some? && HoleAhead(c.codec, c.logs, c.start, c.end, At(page.nextLog), limit))
              && (HoleAhead(c.codec, c.metrics, c.start, c.end, At(p.metric), limit) ==>
                    page.nextMetric.Some? && HoleAhead(c.codec, c.metrics, c.start, c.end, At(page.nextMetric), limit))
  {
    var limit := EffectiveLimit(c.asked, c.sizes);
    RoundMeaning(c.codec, c.sizes, c.logs, c.metrics, c.filters, c.start, c.end, c.asked, At(p.log), At(p.metric));
    PageGetsOn(c.codec, c.logs, c.start, c.end, At(p.log), limit);
    PageGetsOn(c.codec, c.metrics, c.start, c.end, At(p.metric), limit);
  }

  // So a kind with a hole ahead never comes to a null cursor.
  lemma {:induction false} HoleKeepsGoing(c: Client, n: nat)
    requires Ready(c) && AfterRounds(c, n).Success?
    ensures var p, limit := AfterRounds(c, n).value, EffectiveLimit(c.asked, c.sizes);
            && (!NoHole(c, c.logs) ==>
                  HoleAhead(c.codec, c.logs, c.start, c.end, At(p.log), limit) && (n > 0 ==> p.log.Some?))
            && (!NoHole(c, c.metrics) ==>
                  HoleAhead(c.codec, c.metrics, c.start, c.end, At(p.metric), limit) && (n > 0 ==> p.metric.Some?))
  {
    if n > 0 {
      HoleKeepsGoing(c, n - 1);
      HoleStaysAhead(c, AfterRounds(c, n - 1).value);
    }
  }

  lemma {:induction false} FirstTimeOver(c: Client, n: nat) returns (first: nat)
    requires Over(c, n) || exists m :: 0 < m < n && Over(c, m)
    ensures EndsAfter(c, first)
  {
    if exists m :: 0 < m < n && Over(c, m) {
      var m :| 0 < m < n && Over(c, m);
      first := FirstTimeOver(c, m);
    } else {
      first := n;
    }
  }

  /** The documented walk comes to an end exactly if neither kind has a page's worth of
      undecodable entries in a row. */
  lemma DocumentedWalkEnds(c: Client)
    requires Ready(c)
    ensures (exists n :: EndsAfter(c, n)) <==> NoHole(c, c.logs) && NoHole(c, c.metrics)
  {
    if NoHole(c, c.logs) && NoHole(c, c.metrics) {
      var a, b := |Pages(c, c.logs)|, |Pages(c, c.metrics)|;
      MulAtLeast(a, b);
      QuotientUnique(a * b, a, b, 0);
      QuotientUnique(a * b, b, a, 0);
      DivMod(a * b, a);
      DivMod(a * b, b);
      OverMeaning(c, a * b);
      var first := FirstTimeOver(c, a * b);
    } else if n :| EndsAfter(c, n) {
      HoleKeepsGoing(c, n);
    }
  }

  // The least common multiple is one time `a` exactly if `b` divides `a`.
  lemma OneLap(n: nat, a: nat, b: nat)
    requires a > 0 && b > 0 && CommonMultiple(n, a, b) && forall m :: 0 < m < n ==> !CommonMultiple(m, a, b)
    ensures Laps(n, a) >= 1
    ensures Laps(n, a) == 1 <==> a % b == 0
  {
    PhaseMeaning(n, a);
    var k := Laps(n, a);
    assert k == 0 ==> k * a == 0;
    MulAtLeast(k, a);
    MulMinus(k, 1, a);
    QuotientUnique(a, a, 1, 0);
    DivMod(a, a);
    if a % b == 0 {
      assert CommonMultiple(a, a, b);
      assert (k - 1) * a == 0;
      assert k > 1 ==> (k - 1) * a >= a by { if k > 1 { MulAtLeast(k - 1, a); } }
    } else {
      assert k == 1 ==> n == a;
    }
  }

  lemma {:induction false} TimesSize(k: nat, m: multiset<Record>)
    requires k >= 1
    ensures |Times(k, m)| >= |m|
    ensures k == 1 || m == multiset{} ==> Times(k, m) == m
    ensures k > 1 && m != multiset{} ==> |Times(k, m)| > |m|
  {
    if k > 1 {
      TimesSize(k - 1, m);
      assert m != multiset{} ==> |m| > 0;
    } else {
      assert Times(0, m) == multiset{};
    }
  }

  lemma ExactTimes(k: nat, l: multiset<Record>, j: nat, m: multiset<Record>)
    requires k >= 1 && j >= 1
    ensures Times(k, l) + Times(j, m) == l + m <==> (k == 1 || l == multiset{}) && (j == 1 || m == multiset{})
  {
    TimesSize(k, l);
    TimesSize(j, m);
    assert |Times(k, l) + Times(j, m)| == |Times(k, l)| + |Times(j, m)| && |l + m| == |l| + |m|;
  }

  // All matching records of one kind, in stream order.
  function MatchesAhead(c: Client, s: Stream): seq<Record> {
    Matching(c.filters, RecordsAhead(c.codec, s, c.start, c.end, At(None)))
  }

  // How many fetches one kind takes on its own.
  function Fetches(c: Client, s: Stream): nat
    requires NoHole(c, s)
    ensures Fetches(c, s) > 0
  {
    PagesCount(c.codec, s, c.start, c.end, None, EffectiveLimit(c.asked, c.sizes));
    Walk(c.codec, s, c.start, c.end, None, EffectiveLimit(c.asked, c.sizes)).value.fetches
  }

  // When the walk ends, each kind has been gone through a whole number of times, and never before.
  lemma FirstCommon(c: Client, n: nat)
    requires Ready(c) && NoHole(c, c.logs) && NoHole(c, c.metrics)
    ensures EndsAfter(c, n) <==>
              && CommonMultiple(n, Fetches(c, c.logs), Fetches(c, c.metrics))
              && forall m :: 0 < m < n ==> !CommonMultiple(m, Fetches(c, c.logs), Fetches(c, c.metrics))
  {
    FetchesArePages(c, c.logs);
    FetchesArePages(c, c.metrics);
    forall m
      ensures Over(c, m) <==> CommonMultiple(m, Fetches(c, c.logs), Fetches(c, c.metrics))
    {
      OverMeaning(c, m);
    }
  }

  lemma FetchesArePages(c: Client, s: Stream)
    requires NoHole(c, s)
    ensures Fetches(c, s) == |Pages(c, s)|
    ensures FirstMatches(c.filters, Pages(c, s), |Pages(c, s)|) == multiset(MatchesAhead(c, s))
  {
    PagesCount(c.codec, s, c.start, c.end, None, EffectiveLimit(c.asked, c.sizes));
    AllMatches(c.codec, s, c.filters, c.start, c.end, None, EffectiveLimit(c.asked, c.sizes));
  }

  lemma WholeLaps(c: Client, n: nat)
    requires Ready(c) && NoHole(c, c.logs) && NoHole(c, c.metrics)
    ensures Over(c, n) ==>
              multiset(Received(c, n))
              == Times(Laps(n, Fetches(c, c.logs)), multiset(MatchesAhead(c, c.logs)))
                 + Times(Laps(n, Fetches(c, c.metrics)), multiset(MatchesAhead(c, c.metrics)))
  {
    if Over(c, n) {
      FetchesArePages(c, c.logs);
      FetchesArePages(c, c.metrics);
      OverMeaning(c, n);
      PhaseMeaning(n, |Pages(c, c.logs)|);
      PhaseMeaning(n, |Pages(c, c.metrics)|);
      CollectedWhole(c.filters, Pages(c, c.logs), n);
      CollectedWhole(c.filters, Pages(c, c.metrics), n);
      var p := RoundsMeaning(c, n, Pages(c, c.logs), Pages(c, c.metrics));
    }
  }

  lemma CollectedWhole(f: Filters, pages: seq<Page>, n: nat)
    requires pages != [] && Phase(n, |pages|) == 0
    ensures Collected(f, pages, n) == Times(Laps(n, |pages|), FirstMatches(f, pages, |pages|))
  {
  }

  /** The documentation promises pages without duplicates. When the documented walk ends, it has
      returned each match of both kinds exactly once if and only if, for either kind with a match,
      the fetches the other kind takes alone divide those this kind takes. */
  lemma DocumentedWalkIsExact(c: Client, n: nat)
    requires Ready(c) && NoHole(c, c.logs) && NoHole(c, c.metrics)
    ensures EndsAfter(c, n) ==>
              (multiset(Received(c, n)) == multiset(MatchesAhead(c, c.logs)) + multiset(MatchesAhead(c, c.metrics))
               <==> && (MatchesAhead(c, c.logs) != [] ==> Fetches(c, c.logs) % Fetches(c, c.metrics) == 0)
                    && (MatchesAhead(c, c.metrics) != [] ==> Fetches(c, c.metrics) % Fetches(c, c.logs) == 0))
  {
    if EndsAfter(c, n) {
      var a, b := Fetches(c, c.logs), Fetches(c, c.metrics);
      WholeLaps(c, n);
      FirstCommon(c, n);
      OneLap(n, a, b);
      assert forall m :: CommonMultiple(m, a, b) <==> CommonMultiple(m, b, a);
      OneLap(n, b, a);
      ExactTimes(Laps(n, a), multiset(MatchesAhead(c, c.logs)), Laps(n, b), multiset(MatchesAhead(c, c.metrics)));
    }
  }

  /** With everything decodable and a match in each kind: exactly if both kinds have equally many
      full pages. */
  lemma DocumentedWalkOnDecodable(c: Client, n: nat)
    requires Ready(c)
    requires forall e :: e in Ahead(c.logs, c.start, c.end, None) + Ahead(c.metrics, c.start, c.end, None) ==>
               Decodes(c.codec, e)
    ensures EndsAfter(c, n) && MatchesAhead(c, c.logs) != [] && MatchesAhead(c, c.metrics) != [] ==>
              (multiset(Received(c, n)) == multiset(MatchesAhead(c, c.logs)) + multiset(MatchesAhead(c, c.metrics))
               <==> |Ahead(c.logs, c.start, c.end, None)| / EffectiveLimit(c.asked, c.sizes)
                    == |Ahead(c.metrics, c.start, c.end, None)| / EffectiveLimit(c.asked, c.sizes))
  {
    if EndsAfter(c, n) {
      var limit := EffectiveLimit(c.asked, c.sizes);
      DocumentedWalkEnds(c);
      DocumentedWalkIsExact(c, n);
      WalkFetches(c.codec, c.logs, c.start, c.end, None, limit);
      WalkFetches(c.codec, c.metrics, c.start, c.end, None, limit);
      DividesBoth(Fetches(c, c.logs), Fetches(c, c.metrics));
    }
  }

  // Two log entries and one metric entry, read in pages of two.
  function Uneven(codec: Codec, log: string, metric: string): Client {
    Client(codec, PageSizes(2, 2),
           Stream([Entry(StreamId(1, 0), Some(log)), Entry(StreamId(2, 0), Some(log))], StreamId(2, 0)),
           Stream([Entry(StreamId(1, 0), Some(metric))], StreamId(1, 0)),
           Filters(None, None, None), 0, 5, None)
  }

  lemma UnevenAhead(codec: Codec, log: string, metric: string)
    ensures var c := Uneven(codec, log, metric);
            && Ready(c) && EffectiveLimit(c.asked, c.sizes) == 2
            && Ahead(c.logs, c.start, c.end, None) == c.logs.entries
            && Ahead(c.metrics, c.start, c.end, None) == c.metrics.entries
  {
    var c := Uneven(codec, log, metric);
    RangeMeaning(c.logs.entries, From(StreamId(0, 0)), Ceiling(5));
    AscendingUnique(Ahead(c.logs, c.start, c.end, None), c.logs.entries);
    RangeMeaning(c.metrics.entries, From(StreamId(0, 0)), Ceiling(5));
    AscendingUnique(Ahead(c.metrics, c.start, c.end, None), c.metrics.entries);
  }

  // A kind whose first entry decodes has a match if there are no filters.
  lemma SomethingMatches(c: Client, s: Stream)
    requires c.filters == Filters(None, None, None)
    requires Ahead(s, c.start, c.end, None) != [] && Decodes(c.codec, Ahead(s, c.start, c.end, None)[0])
    ensures MatchesAhead(c, s) != []
  {
    var ahead := Ahead(s, c.start, c.end, None);
    var hits := Hits(c.codec, ahead);
    HitsMeaning(c.codec, ahead);
    assert ahead[0] in ahead;
    assert hits != [];
    FilterMembers(Meets(c.filters), RecordsOf(hits));
    assert RecordsOf(hits)[0] in RecordsOf(hits);
  }

  /** A documented walk that ends and has returned something twice, for any log and any metric
      text that can be parsed. */
  lemma DocumentedWalkRepeats(codec: Codec, log: string, metric: string) returns (n: nat)
    requires codec.decode(log).Some? && codec.decode(metric).Some?
    ensures var c := Uneven(codec, log, metric);
            && EndsAfter(c, n)
            && multiset(Received(c, n)) != multiset(MatchesAhead(c, c.logs)) + multiset(MatchesAhead(c, c.metrics))
  {
    var c := Uneven(codec, log, metric);
    UnevenAhead(codec, log, metric);
    assert forall e :: e in c.logs.entries + c.metrics.entries ==> Decodes(codec, e);
    SomethingMatches(c, c.logs);
    SomethingMatches(c, c.metrics);
    WalkFetches(codec, c.logs, 0, 5, None, 2);
    WalkFetches(codec, c.metrics, 0, 5, None, 2);
    WalkIsComplete(codec, c.logs, 0, 5, None, 2);
    WalkIsComplete(codec, c.metrics, 0, 5, None, 2);
    DocumentedWalkEnds(c);
    n :| EndsAfter(c, n);
    DocumentedWalkOnDecodable(c, n);
  }

  lemma DividesBoth(a: nat, b: nat)
    requires a > 0 && b > 0
    ensures a % b == 0 && b % a == 0 <==> a == b
  {
    QuotientUnique(a, a, 1, 0);
    DivMod(a, a);
    if a % b == 0 && b % a == 0 {
      AtLeastDivisor(a, b);
      AtLeastDivisor(b, a);
    }
  }

  lemma AtLeastDivisor(n: nat, d: nat)
    requires n > 0 && d > 0 && n % d == 0
    ensures n >= d
  {
    DivMod(n, d);
    if n / d >= 1 {
      MulAtLeast(n / d, d);
    }
  }
}
