/** The post-XRANGE filters (queries.py: apply_filters) and the sort by `ts` (records.py). */
module Filters {
  import opened Wrappers
  import opened Records

  function FilterBy<T>(p: T -> bool, s: seq<T>): seq<T> {
    if s == [] then []
    else if p(s[|s| - 1]) then FilterBy(p, s[..|s| - 1]) + [s[|s| - 1]]
    else FilterBy(p, s[..|s| - 1])
  }

  lemma {:induction false} FilterConcat<T>(p: T -> bool, a: seq<T>, b: seq<T>)
    ensures FilterBy(p, a + b) == FilterBy(p, a) + FilterBy(p, b)
  {
    if b == [] {
      assert a + b == a;
    } else {
      assert (a + b)[..|a + b| - 1] == a + b[..|b| - 1];
      FilterConcat(p, a, b[..|b| - 1]);
    }
  }

  function Both<T>(p: T -> bool, q: T -> bool): T -> bool {
    x => p(x) && q(x)
  }

  lemma {:induction false} FilterSwap<T>(p: T -> bool, q: T -> bool, s: seq<T>)
    ensures FilterBy(p, FilterBy(q, s)) == FilterBy(q, FilterBy(p, s))
    ensures FilterBy(p, FilterBy(q, s)) == FilterBy(Both(p, q), s)
  {
    if s != [] {
      var init, last := s[..|s| - 1], [s[|s| - 1]];
      FilterSwap(p, q, init);
      FilterConcat(p, FilterBy(q, init), last);
      FilterConcat(q, FilterBy(p, init), last);
    }
  }

  lemma {:induction false} FilterMembers<T>(p: T -> bool, s: seq<T>)
    ensures forall x :: x in FilterBy(p, s) <==> x in s && p(x)
  {
    if s != [] {
      FilterMembers(p, s[..|s| - 1]);
      assert s == s[..|s| - 1] + [s[|s| - 1]];
    }
  }

  // ---------- apply_filters ----------

  datatype Filters = Filters(containerId: Option<string>, level: Option<string>, q: Option<string>)

  // Lower-casing, on ASCII letters.
  function Lower(s: string): string {
    seq(|s|, i requires 0 <= i < |s| => if 'A' <= s[i] <= 'Z' then (s[i] as int + 32) as char else s[i])
  }

  predicate Contains(text: string, needle: string) {
    exists i :: 0 <= i <= |text| && StartsAt(text, i, needle)
  }

  predicate StartsAt(text: string, i: nat, needle: string) {
    i + |needle| <= |text| && text[i..i + |needle|] == needle
  }

  ghost predicate Surrounds(text: string, before: string, needle: string, after: string) {
    text == before + needle + after
  }

  /** A text contains a needle exactly if it is the needle with something before and after it. */
  lemma ContainsMeaning(text: string, needle: string)
    ensures Contains(text, needle) <==> exists before, after :: Surrounds(text, before, needle, after)
  {
    if Contains(text, needle) {
      var i :| 0 <= i <= |text| && StartsAt(text, i, needle);
      assert Surrounds(text, text[..i], needle, text[i + |needle|..]);
    }
    if before, after :| Surrounds(text, before, needle, after) {
      assert StartsAt(text, |before|, needle);
    }
  }

  // What the filters read off a record: metrics have no level and no message.
  function LevelOf(r: Record): Option<string> {
    if r.LogRecord? then Some(r.level) else None
  }

  function MessageOf(r: Record): string {
    if r.LogRecord? then r.message else ""
  }

  // The three tests, each of them passed by every record if the filter is not given.
  function InContainer(containerId: Option<string>): Record -> bool {
    (r: Record) => containerId.Some? ==> r.containerId == containerId.value
  }

  function OnLevel(level: Option<string>): Record -> bool {
    (r: Record) => level.Some? ==> LevelOf(r) == level
  }

  function Mentions(q: Option<string>): Record -> bool {
    (r: Record) => q.Some? ==> Contains(Lower(MessageOf(r)), Lower(q.value))
  }

  function ApplyFilters(f: Filters, records: seq<Record>): seq<Record> {
    var byContainer := if f.containerId.Some? then FilterBy(InContainer(f.containerId), records) else records;
    var byLevel := if f.level.Some? then FilterBy(OnLevel(f.level), byContainer) else byContainer;
    if f.q.Some? then FilterBy(Mentions(f.q), byLevel) else byLevel
  }

  predicate Matches(f: Filters, r: Record) {
    && (f.containerId.Some? ==> r.containerId == f.containerId.value)
    && (f.level.Some? ==> r.LogRecord? && r.level == f.level.value)
    && (f.q.Some? ==> Contains(Lower(MessageOf(r)), Lower(f.q.value)))
  }

  function Meets(f: Filters): Record -> bool {
    (r: Record) => Matches(f, r)
  }

  function Matching(f: Filters, records: seq<Record>): seq<Record> {
    FilterBy(Meets(f), records)
  }

  lemma {:induction false} FilterSame<T>(p: T -> bool, q: T -> bool, s: seq<T>)
    requires forall x :: x in s ==> p(x) == q(x)
    ensures FilterBy(p, s) == FilterBy(q, s)
  {
    if s != [] {
      FilterSame(p, q, s[..|s| - 1]);
    }
  }

  lemma {:induction false} FilterAll<T>(p: T -> bool, s: seq<T>)
    requires forall x :: x in s ==> p(x)
    ensures FilterBy(p, s) == s
  {
    if s != [] {
      FilterAll(p, s[..|s| - 1]);
    }
  }

  // A filter that is not given lets everything pass.
  lemma ThreePasses(f: Filters, records: seq<Record>)
    ensures ApplyFilters(f, records)
            == FilterBy(Mentions(f.q), FilterBy(OnLevel(f.level), FilterBy(InContainer(f.containerId), records)))
  {
    var c, l, q := InContainer(f.containerId), OnLevel(f.level), Mentions(f.q);
    if f.containerId.None? {
      FilterAll(c, records);
    }
    if f.level.None? {
      FilterAll(l, FilterBy(c, records));
    }
    if f.q.None? {
      FilterAll(q, FilterBy(l, FilterBy(c, records)));
    }
  }

  /** The three passes keep exactly the records that meet every given filter, in order. */
  lemma ApplyFiltersMeaning(f: Filters, records: seq<Record>)
    ensures ApplyFilters(f, records) == Matching(f, records)
  {
    var c, l, q := InContainer(f.containerId), OnLevel(f.level), Mentions(f.q);
    ThreePasses(f, records);
    FilterSwap(l, c, records);
    FilterSwap(q, Both(l, c), records);
    assert forall r :: Both(q, Both(l, c))(r) == Meets(f)(r);
    FilterSame(Both(q, Both(l, c)), Meets(f), records);
  }

  /** Lower-casing adds 32 to the code points 65 to 90, the upper-case letters, and keeps the rest. */
  lemma LowerMeaning(s: string, i: nat)
    requires i < |s|
    ensures |Lower(s)| == |s|
    ensures Lower(s)[i] as int == s[i] as int + if 65 <= s[i] as int <= 90 then 32 else 0
  {
  }

  /** A search finds the logs whose message contains the text, upper and lower case alike; no metric
      has a message, so only an empty search text finds one. */
  lemma SearchMeaning(q: string, r: Record)
    ensures var f := Filters(None, None, Some(q));
            && (r.LogRecord? ==>
                  (r in ApplyFilters(f, [r]) <==>
                     exists before, after :: Surrounds(Lower(r.message), before, Lower(q), after)))
            && (r.MetricRecord? ==> (r in ApplyFilters(f, [r]) <==> q == ""))
  {
    var f := Filters(None, None, Some(q));
    ApplyFiltersMeaning(f, [r]);
    FilterMembers(Meets(f), [r]);
    if r.LogRecord? {
      ContainsMeaning(Lower(r.message), Lower(q));
    } else if q == "" {
      assert StartsAt(Lower(""), 0, Lower(""));
    }
  }

  /** A level, or a search text that is not empty, selects logs only. */
  lemma OnlyLogs(f: Filters, records: seq<Record>)
    requires f.level.Some? || (f.q.Some? && f.q.value != "")
    ensures forall r :: r in ApplyFilters(f, records) ==> r.LogRecord?
  {
    ApplyFiltersMeaning(f, records);
    FilterMembers(Meets(f), records);
  }

  // ---------- sort(key=lambda r: r.ts) ----------

  // Places `r` after everything that is not later: a stable insertion.
  function Insert(sorted: seq<Record>, r: Record): seq<Record> {
    if sorted == [] || sorted[|sorted| - 1].ts <= r.ts then sorted + [r]
    else Insert(sorted[..|sorted| - 1], r) + [sorted[|sorted| - 1]]
  }

  function SortByTs(records: seq<Record>): seq<Record> {
    if records == [] then [] else Insert(SortByTs(records[..|records| - 1]), records[|records| - 1])
  }

  ghost predicate SortedByTs(records: seq<Record>) {
    forall i, j :: 0 <= i < j < |records| ==> records[i].ts <= records[j].ts
  }

  function Instant(ts: int): Record -> bool {
    (r: Record) => r.ts == ts
  }

  function AtTs(ts: int, records: seq<Record>): seq<Record> {
    FilterBy(Instant(ts), records)
  }

  lemma {:induction false} InsertMeaning(sorted: seq<Record>, r: Record)
    requires SortedByTs(sorted)
    ensures SortedByTs(Insert(sorted, r))
    ensures forall x :: x in Insert(sorted, r) ==> x in sorted || x == r
  {
    if sorted != [] && sorted[|sorted| - 1].ts > r.ts {
      var init, last := sorted[..|sorted| - 1], sorted[|sorted| - 1];
      InsertMeaning(init, r);
      var inserted := Insert(init, r);
      forall i | 0 <= i < |inserted|
        ensures inserted[i].ts <= last.ts
      {
        assert inserted[i] in inserted;
      }
    }
  }

  lemma {:induction false} InsertPermutes(sorted: seq<Record>, r: Record)
    ensures multiset(Insert(sorted, r)) == multiset(sorted) + multiset{r}
  {
    if sorted != [] && sorted[|sorted| - 1].ts > r.ts {
      InsertPermutes(sorted[..|sorted| - 1], r);
      assert sorted == sorted[..|sorted| - 1] + [sorted[|sorted| - 1]];
    }
  }

  // An insertion is stable: the new record comes last among those of its instant.
  lemma {:induction false} InsertStable(sorted: seq<Record>, r: Record, ts: int)
    ensures AtTs(ts, Insert(sorted, r)) == AtTs(ts, sorted) + (if r.ts == ts then [r] else [])
  {
    if sorted != [] && sorted[|sorted| - 1].ts > r.ts {
      var init, last := sorted[..|sorted| - 1], sorted[|sorted| - 1];
      InsertStable(init, r, ts);
      OneMoreAtTs(Insert(init, r), last, ts);
      assert sorted == init + [last];
      OneMoreAtTs(init, last, ts);
    } else {
      OneMoreAtTs(sorted, r, ts);
    }
  }

  lemma OneMoreAtTs(records: seq<Record>, r: Record, ts: int)
    ensures AtTs(ts, records + [r]) == AtTs(ts, records) + if r.ts == ts then [r] else []
  {
  }

  /** The result is sorted and a permutation of the input. */
  lemma {:induction false} SortMeaning(records: seq<Record>)
    ensures SortedByTs(SortByTs(records))
    ensures multiset(SortByTs(records)) == multiset(records)
  {
    if records != [] {
      var init, last := records[..|records| - 1], records[|records| - 1];
      SortMeaning(init);
      InsertMeaning(SortByTs(init), last);
      InsertPermutes(SortByTs(init), last);
      assert records == init + [last];
    }
  }

  /** It is stable: among records of one instant the order is the input's. */
  lemma {:induction false} SortStable(records: seq<Record>, ts: int)
    ensures AtTs(ts, SortByTs(records)) == AtTs(ts, records)
  {
    if records != [] {
      var init, last := records[..|records| - 1], records[|records| - 1];
      SortStable(init, ts);
      InsertStable(SortByTs(init), last, ts);
      assert records == init + [last];
      OneMoreAtTs(init, last, ts);
    }
  }

  /** Being sorted and stable determines the result, so any stable sort returns it. */
  lemma {:induction false} StableSortUnique(a: seq<Record>, b: seq<Record>)
    requires SortedByTs(a) && SortedByTs(b) && forall ts :: AtTs(ts, a) == AtTs(ts, b)
    ensures a == b
  {
    if a != [] {
      LastAtTs(a);
      assert AtTs(a[|a| - 1].ts, b) != [];
      FilterMembers(Instant(a[|a| - 1].ts), b);
    }
    if b != [] {
      LastAtTs(b);
      assert AtTs(b[|b| - 1].ts, a) != [];
      FilterMembers(Instant(b[|b| - 1].ts), a);
    }
    if a != [] && b != [] {
      var x, y := a[|a| - 1], b[|b| - 1];
      assert x.ts == y.ts;
      assert x == y;
      var c, d := a[..|a| - 1], b[..|b| - 1];
      forall ts
        ensures AtTs(ts, c) == AtTs(ts, d)
      {
        assert AtTs(ts, a) == AtTs(ts, b);
        if x.ts == ts {
          assert AtTs(ts, c) == AtTs(ts, a)[..|AtTs(ts, a)| - 1];
          assert AtTs(ts, d) == AtTs(ts, b)[..|AtTs(ts, b)| - 1];
        }
      }
      StableSortUnique(a[..|a| - 1], b[..|b| - 1]);
    }
  }

  lemma LastAtTs(a: seq<Record>)
    requires a != []
    ensures var at := AtTs(a[|a| - 1].ts, a);
            at != [] && at[|at| - 1] == a[|a| - 1]
  {
  }

  lemma {:induction false} FilterKeepsSorted(p: Record -> bool, a: seq<Record>)
    requires SortedByTs(a)
    ensures SortedByTs(FilterBy(p, a))
  {
    if a != [] {
      FilterKeepsSorted(p, a[..|a| - 1]);
      FilterMembers(p, a[..|a| - 1]);
      var kept := FilterBy(p, a[..|a| - 1]);
      assert forall i :: 0 <= i < |kept| ==> kept[i] in kept;
    }
  }

  /** Filtering after the sort is filtering before it. */
  lemma FilterCommutesWithSort(f: Filters, records: seq<Record>)
    ensures Matching(f, SortByTs(records)) == SortByTs(Matching(f, records))
  {
    var p := Meets(f);
    var a, b := FilterBy(p, SortByTs(records)), SortByTs(FilterBy(p, records));
    SortMeaning(records);
    SortMeaning(FilterBy(p, records));
    FilterKeepsSorted(p, SortByTs(records));
    forall ts
      ensures AtTs(ts, a) == AtTs(ts, b)
    {
      FilterSwap(Instant(ts), p, SortByTs(records));
      FilterSwap(Instant(ts), p, records);
      SortStable(records, ts);
      SortStable(FilterBy(p, records), ts);
    }
    StableSortUnique(a, b);
  }
}
