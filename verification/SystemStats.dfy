/** Host metrics (system_stats.py): splitting the one-trip `/proc` read into its sections, and
    the CPU percentage computed from successive samples. */
module SystemStats {
  import opened Wrappers

  // ---------- Sections ----------

  const MARKER_STAT := "===STAT==="
  const MARKER_MEMINFO := "===MEMINFO==="
  const MARKER_NETDEV := "===NETDEV==="
  const MARKER_DISKSTATS := "===DISKSTATS==="

  const MARKERS: set<string> := {MARKER_STAT, MARKER_MEMINFO, MARKER_NETDEV, MARKER_DISKSTATS}

  // The sections found so far, and the one the next line belongs to.
  datatype Split = Split(sections: map<string, seq<string>>, current: Option<string>)

  function Read(markers: set<string>, split: Split, line: string): Split {
    if line in markers then Split(split.sections[line := []], Some(line))
    else if split.current.Some? && split.current.value in split.sections
    then split.(sections := split.sections[split.current.value := split.sections[split.current.value] + [line]])
    else split
  }

  function ReadAll(markers: set<string>, split: Split, lines: seq<string>): Split {
    if lines == [] then split else Read(markers, ReadAll(markers, split, lines[..|lines| - 1]), lines[|lines| - 1])
  }

  const NOTHING_READ := Split(map[], None)

  // `_split_proc_sections`, on the lines of the output; the section texts as lists of lines.
  method SplitProcSections(lines: seq<string>) returns (sections: map<string, seq<string>>)
    ensures sections == ReadAll(MARKERS, NOTHING_READ, lines).sections
  {
    sections := map[];
    var current: Option<string> := None;
    for i := 0 to |lines|
      invariant ReadAll(MARKERS, NOTHING_READ, lines[..i]) == Split(sections, current)
      invariant current.Some? ==> current.value in sections
    {
      assert lines[..i + 1][..i] == lines[..i];
      if lines[i] in MARKERS {
        sections, current := sections[lines[i] := []], Some(lines[i]);
      } else if current.Some? {
        sections := sections[current.value := sections[current.value] + [lines[i]]];
      }
    }
    assert lines[..|lines|] == lines;
  }

  datatype Section = Section(marker: string, body: seq<string>)

  // What the shell script prints: every marker, followed by what `cat` printed.
  function Rendered(sections: seq<Section>): seq<string> {
    if sections == [] then []
    else Rendered(sections[..|sections| - 1]) + [sections[|sections| - 1].marker] + sections[|sections| - 1].body
  }

  predicate Plain(markers: set<string>, lines: seq<string>) {
    forall line :: line in lines ==> line !in markers
  }

  ghost predicate Printable(markers: set<string>, sections: seq<Section>) {
    && (forall s :: s in sections ==> s.marker in markers && Plain(markers, s.body))
    && (forall i, j :: 0 <= i < j < |sections| ==> sections[i].marker != sections[j].marker)
  }

  lemma {:induction false} ReadAllConcat(markers: set<string>, split: Split, a: seq<string>, b: seq<string>)
    ensures ReadAll(markers, split, a + b) == ReadAll(markers, ReadAll(markers, split, a), b)
  {
    if b == [] {
      assert a + b == a;
    } else {
      assert (a + b)[..|a + b| - 1] == a + b[..|b| - 1];
      ReadAllConcat(markers, split, a, b[..|b| - 1]);
    }
  }

  lemma {:induction false} ReadBody(markers: set<string>, split: Split, body: seq<string>)
    requires Plain(markers, body) && split.current.Some? && split.current.value in split.sections
    ensures var m := split.current.value;
            ReadAll(markers, split, body) == split.(sections := split.sections[m := split.sections[m] + body])
  {
    var m := split.current.value;
    if body == [] {
      assert split.sections[m] + body == split.sections[m];
      assert split.sections[m := split.sections[m]] == split.sections;
    } else {
      ReadBody(markers, split, body[..|body| - 1]);
      assert body == body[..|body| - 1] + [body[|body| - 1]];
      assert split.sections[m] + body == (split.sections[m] + body[..|body| - 1]) + [body[|body| - 1]];
    }
  }

  lemma {:induction false} ReadPreamble(markers: set<string>, preamble: seq<string>)
    requires Plain(markers, preamble)
    ensures ReadAll(markers, NOTHING_READ, preamble) == NOTHING_READ
  {
    if preamble != [] {
      ReadPreamble(markers, preamble[..|preamble| - 1]);
    }
  }

  lemma ReadMarker(markers: set<string>, split: Split, m: string)
    requires m in markers
    ensures ReadAll(markers, split, [m]) == Split(split.sections[m := []], Some(m))
  {
  }

  lemma ReadSection(markers: set<string>, split: Split, m: string, body: seq<string>)
    requires m in markers && Plain(markers, body)
    ensures ReadAll(markers, split, [m] + body).sections == split.sections[m := body]
  {
    var marked := Split(split.sections[m := []], Some(m));
    ReadMarker(markers, split, m);
    ReadAllConcat(markers, split, [m], body);
    ReadBody(markers, marked, body);
    assert marked.sections[m] + body == body;
  }

  lemma {:induction false} ReadRendered(markers: set<string>, preamble: seq<string>, sections: seq<Section>)
    requires Plain(markers, preamble) && forall s :: s in sections ==> s.marker in markers && Plain(markers, s.body)
    ensures ReadAll(markers, NOTHING_READ, preamble + Rendered(sections)).sections == Bodies(sections)
  {
    if sections == [] {
      assert preamble + Rendered(sections) == preamble;
      ReadPreamble(markers, preamble);
    } else {
      var init, last := sections[..|sections| - 1], sections[|sections| - 1];
      ReadRendered(markers, preamble, init);
      var before := preamble + Rendered(init);
      assert preamble + Rendered(sections) == before + ([last.marker] + last.body);
      ReadAllConcat(markers, NOTHING_READ, before, [last.marker] + last.body);
      ReadSection(markers, ReadAll(markers, NOTHING_READ, before), last.marker, last.body);
    }
  }

  // Each marker with its body; a repeated marker starts over.
  function Bodies(sections: seq<Section>): map<string, seq<string>> {
    if sections == [] then map[]
    else Bodies(sections[..|sections| - 1])[sections[|sections| - 1].marker := sections[|sections| - 1].body]
  }

  function MarkersOf(sections: seq<Section>): set<string> {
    set s | s in sections :: s.marker
  }

  lemma OneMoreSection(sections: seq<Section>)
    requires sections != []
    requires forall i, j :: 0 <= i < j < |sections| ==> sections[i].marker != sections[j].marker
    ensures var init, last := sections[..|sections| - 1], sections[|sections| - 1];
            && (forall s :: s in sections <==> s in init || s == last)
            && (forall s :: s in init ==> s.marker != last.marker)
            && MarkersOf(sections) == MarkersOf(init) + {last.marker}
  {
    var init, last := sections[..|sections| - 1], sections[|sections| - 1];
    assert sections == init + [last];
    assert forall s :: s in sections <==> s in init || s == last;
  }

  lemma {:induction false} BodiesMeaning(sections: seq<Section>)
    requires forall i, j :: 0 <= i < j < |sections| ==> sections[i].marker != sections[j].marker
    ensures Bodies(sections).Keys == MarkersOf(sections)
    ensures forall s :: s in sections ==> Bodies(sections)[s.marker] == s.body
  {
    if sections != [] {
      BodiesMeaning(sections[..|sections| - 1]);
      OneMoreSection(sections);
    }
  }

  /** Splitting undoes the printing: every section is recovered line by line, and nothing
      before the first marker counts, as long as no printed line is a marker itself. */
  lemma SplitRecovers(markers: set<string>, preamble: seq<string>, sections: seq<Section>)
    requires Plain(markers, preamble) && Printable(markers, sections)
    ensures var split := ReadAll(markers, NOTHING_READ, preamble + Rendered(sections)).sections;
            && split.Keys == MarkersOf(sections)
            && (forall s :: s in sections ==> split[s.marker] == s.body)
  {
    ReadRendered(markers, preamble, sections);
    BodiesMeaning(sections);
  }

  function Printed(s: Section): seq<string> {
    [s.marker] + s.body
  }

  lemma FourRead(markers: set<string>, a: Section, b: Section, c: Section, d: Section)
    requires a.marker in markers && b.marker in markers && c.marker in markers && d.marker in markers
    requires Plain(markers, a.body) && Plain(markers, b.body) && Plain(markers, c.body) && Plain(markers, d.body)
    ensures ReadAll(markers, NOTHING_READ, Printed(a) + Printed(b) + Printed(c) + Printed(d)).sections
            == map[][a.marker := a.body][b.marker := b.body][c.marker := c.body][d.marker := d.body]
  {
    OneRead(markers, [], a);
    OneRead(markers, Printed(a), b);
    OneRead(markers, Printed(a) + Printed(b), c);
    OneRead(markers, Printed(a) + Printed(b) + Printed(c), d);
    assert [] + Printed(a) == Printed(a);
  }

  lemma OneRead(markers: set<string>, before: seq<string>, s: Section)
    requires s.marker in markers && Plain(markers, s.body)
    ensures ReadAll(markers, NOTHING_READ, before + Printed(s)).sections
            == ReadAll(markers, NOTHING_READ, before).sections[s.marker := s.body]
  {
    ReadAllConcat(markers, NOTHING_READ, before, Printed(s));
    ReadSection(markers, ReadAll(markers, NOTHING_READ, before), s.marker, s.body);
  }

  predicate NoMarker(lines: seq<string>) {
    forall line :: line in lines ==>
      line != "===STAT===" && line != "===MEMINFO===" && line != "===NETDEV===" && line != "===DISKSTATS==="
  }

  /** The four sections of the one-trip read come back line by line if none of their lines is one of
      the four markers. */
  lemma FourSections(stat: seq<string>, meminfo: seq<string>, netdev: seq<string>, diskstats: seq<string>)
    requires NoMarker(stat) && NoMarker(meminfo) && NoMarker(netdev) && NoMarker(diskstats)
    ensures var out := ["===STAT==="] + stat + ["===MEMINFO==="] + meminfo
                       + ["===NETDEV==="] + netdev + ["===DISKSTATS==="] + diskstats;
            ReadAll(MARKERS, NOTHING_READ, out).sections
            == map["===STAT===" := stat, "===MEMINFO===" := meminfo,
                   "===NETDEV===" := netdev, "===DISKSTATS===" := diskstats]
  {
    FourRead(MARKERS, Section("===STAT===", stat), Section("===MEMINFO===", meminfo),
             Section("===NETDEV===", netdev), Section("===DISKSTATS===", diskstats));
    var a, b := ["===STAT==="] + stat, ["===MEMINFO==="] + meminfo;
    var c, d := ["===NETDEV==="] + netdev, ["===DISKSTATS==="] + diskstats;
    assert ["===STAT==="] + stat + ["===MEMINFO==="] + meminfo
           + ["===NETDEV==="] + netdev + ["===DISKSTATS==="] + diskstats
        == a + b + c + d;
  }

  // ---------- CPU percentage ----------

  datatype CpuSample = CpuSample(total: int, idle: int)

  // `_cpu_percent`, in exact arithmetic.
  function CpuPercent(prev: CpuSample, curr: CpuSample): Option<real> {
    var total, idle := curr.total - prev.total, curr.idle - prev.idle;
    if total <= 0 then None
    else
      var busy := 100.0 * (1.0 - idle as real / total as real);
      Some(if busy > 0.0 then busy else 0.0)
  }

  /** There is a percentage exactly if the total has advanced. It is never negative, and at most
      100 exactly if the idle time has not gone back; it is 0 exactly if all the time was idle
      and 100 exactly if none was. */
  lemma CpuPercentMeaning(prev: CpuSample, curr: CpuSample)
    ensures CpuPercent(prev, curr).Some? <==> curr.total > prev.total
    ensures curr.total > prev.total ==>
              var pct := CpuPercent(prev, curr).value;
              && pct >= 0.0
              && (pct <= 100.0 <==> curr.idle >= prev.idle)
              && (pct == 100.0 <==> curr.idle == prev.idle)
              && (pct == 0.0 <==> curr.idle - prev.idle >= curr.total - prev.total)
              && (pct > 0.0 ==>
                    pct * (curr.total - prev.total) as real
                    == 100.0 * ((curr.total - prev.total) - (curr.idle - prev.idle)) as real)
  {
  }

  // ---------- The sampling loop ----------

  datatype MetricsSource = PROC | CONTAINER_AGGREGATE | NONE

  // What one cycle could read: a `/proc` sample, and the CPU figure of the fallback.
  datatype Cycle = Cycle(proc: Option<CpuSample>, aggregate: Option<real>)

  datatype Sampled = Sampled(seqNo: nat, cpuPct: Option<real>, source: string)

  // The latest successful sample before cycle `n`.
  function LatestBefore(cycles: seq<Cycle>, n: nat): Option<CpuSample>
    requires n <= |cycles|
  {
    if n == 0 then None
    else if cycles[n - 1].proc.Some? then cycles[n - 1].proc
    else LatestBefore(cycles, n - 1)
  }

  // The record of cycle `n`, from the history up to it.
  function RecordOf(source: MetricsSource, cycles: seq<Cycle>, n: nat): Sampled
    requires n < |cycles|
  {
    var now := cycles[n];
    match source
    case PROC =>
      if now.proc.None? then Sampled(n + 1, now.aggregate, "container-aggregate")
      else Sampled(n + 1,
                   match LatestBefore(cycles, n) case None => None case Some(prev) => CpuPercent(prev, now.proc.value),
                   "/proc")
    case CONTAINER_AGGREGATE => Sampled(n + 1, now.aggregate, "container-aggregate")
    case NONE => Sampled(n + 1, None, "docker system df")
  }

  // The busy share of the time between two samples, in percent.
  ghost predicate BusyShare(prev: CpuSample, curr: CpuSample, pct: Option<real>) {
    var total, idle := (curr.total - prev.total) as real, (curr.idle - prev.idle) as real;
    if total <= 0.0 then pct == None
    else pct.Some? && if idle >= total then pct.value == 0.0 else pct.value * total == 100.0 * (total - idle)
  }

  lemma CpuPercentIsBusyShare(prev: CpuSample, curr: CpuSample)
    ensures BusyShare(prev, curr, CpuPercent(prev, curr))
  {
    CpuPercentMeaning(prev, curr);
  }

  // What the record of a cycle reports, from the samples of this cycle and the earlier ones.
  ghost predicate Reports(source: MetricsSource, cycles: seq<Cycle>, n: nat, r: Sampled)
    requires n < |cycles|
  {
    && r.seqNo == n + 1
    && (source == NONE ==> r.source == "docker system df" && r.cpuPct == None)
    && (source == CONTAINER_AGGREGATE || (source == PROC && cycles[n].proc == None) ==>
          r.source == "container-aggregate" && r.cpuPct == cycles[n].aggregate)
    && (source == PROC && cycles[n].proc != None ==>
          && r.source == "/proc"
          && ((forall k :: 0 <= k < n ==> cycles[k].proc == None) ==> r.cpuPct == None)
          && (forall j :: 0 <= j < n && cycles[j].proc != None && (forall k :: j < k < n ==> cycles[k].proc == None) ==>
                BusyShare(cycles[j].proc.value, cycles[n].proc.value, r.cpuPct)))
  }

  lemma {:induction false} LatestIsUnique(cycles: seq<Cycle>, n: nat, j: nat)
    requires j < n <= |cycles| && cycles[j].proc != None && forall k :: j < k < n ==> cycles[k].proc == None
    ensures LatestBefore(cycles, n) == cycles[j].proc
  {
    if j < n - 1 {
      LatestIsUnique(cycles, n - 1, j);
    }
  }

  lemma RecordReports(source: MetricsSource, cycles: seq<Cycle>, n: nat)
    requires n < |cycles|
    ensures Reports(source, cycles, n, RecordOf(source, cycles, n))
  {
    LatestBeforeMeaning(cycles, n);
    forall j | 0 <= j < n && cycles[j].proc != None && cycles[n].proc != None
               && forall k :: j < k < n ==> cycles[k].proc == None
      ensures LatestBefore(cycles, n) == cycles[j].proc
      ensures BusyShare(cycles[j].proc.value, cycles[n].proc.value,
                        CpuPercent(cycles[j].proc.value, cycles[n].proc.value))
    {
      LatestIsUnique(cycles, n, j);
      CpuPercentIsBusyShare(cycles[j].proc.value, cycles[n].proc.value);
    }
  }

  // `run_system_stats` over any finite number of cycles.
  method RunSystemStats(source: MetricsSource, cycles: seq<Cycle>) returns (records: seq<Sampled>)
    ensures |records| == |cycles|
    ensures forall n :: 0 <= n < |cycles| ==> records[n] == RecordOf(source, cycles, n)
    ensures forall n :: 0 <= n < |cycles| ==> Reports(source, cycles, n, records[n])
  {
    var seqCounter := 1;
    var prevCpu: Option<CpuSample> := None;
    records := [];
    for i := 0 to |cycles|
      invariant seqCounter == i + 1 && |records| == i
      invariant source.PROC? ==> prevCpu == LatestBefore(cycles, i)
      invariant forall n :: 0 <= n < i ==> records[n] == RecordOf(source, cycles, n)
    {
      var cpuPct: Option<real> := None;
      var origin := "docker system df";
      if source == PROC {
        if cycles[i].proc.Some? {
          if prevCpu.Some? {
            cpuPct := CpuPercent(prevCpu.value, cycles[i].proc.value);
          }
          prevCpu := cycles[i].proc;
          origin := "/proc";
        } else {
          cpuPct, origin := cycles[i].aggregate, "container-aggregate";
        }
      } else if source == CONTAINER_AGGREGATE {
        cpuPct, origin := cycles[i].aggregate, "container-aggregate";
      }
      records := records + [Sampled(seqCounter, cpuPct, origin)];
      seqCounter := seqCounter + 1;
    }
    forall n | 0 <= n < |cycles|
      ensures Reports(source, cycles, n, records[n])
    {
      RecordReports(source, cycles, n);
    }
  }

  /** Failed cycles do not disturb the history: the sample a percentage is measured against is
      the one of the most recent earlier cycle that had any. */
  lemma {:induction false} LatestBeforeMeaning(cycles: seq<Cycle>, n: nat)
    requires n <= |cycles|
    ensures match LatestBefore(cycles, n)
            case None => forall k :: 0 <= k < n ==> cycles[k].proc.None?
            case Some(sample) =>
              exists j :: 0 <= j < n && cycles[j].proc == Some(sample) && forall k :: j < k < n ==> cycles[k].proc.None?
  {
    if n > 0 && cycles[n - 1].proc.None? {
      LatestBeforeMeaning(cycles, n - 1);
    } else if n > 0 {
      assert cycles[n - 1].proc == LatestBefore(cycles, n);
    }
  }
}
