/** One container listener (container_listener.py): from merged output lines to numbered
    log records. */
module ContainerListener {
  import opened Wrappers
  import opened Records
  import opened StreamMerge

  // The two parsers of the standard library: an ISO 8601 instant, and a JSON object with its
  // values rendered as text.
  datatype Parsers = Parsers(instant: string -> Option<int>, jsonObject: string -> Option<map<string, string>>)

  datatype Container = Container(dockerHost: string, containerId: string, containerName: string)

  const DEFAULT_LEVEL := "info"

  function StreamName(source: Source): string {
    match source
    case STDOUT => "stdout"
    case STDERR => "stderr"
  }

  // `text.partition(" ")`: what comes before the first blank, and what comes after it.
  function FirstWord(text: string): string {
    if text == "" || text[0] == ' ' then "" else [text[0]] + FirstWord(text[1..])
  }

  function AfterFirstWord(text: string): string {
    if text == "" then "" else if text[0] == ' ' then text[1..] else AfterFirstWord(text[1..])
  }

  /** The two parts make up the text around its first blank. */
  lemma {:induction false} PartitionMeaning(text: string)
    ensures ' ' !in FirstWord(text)
    ensures if ' ' in text then text == FirstWord(text) + " " + AfterFirstWord(text)
            else text == FirstWord(text) && AfterFirstWord(text) == ""
  {
    if text != "" && text[0] != ' ' {
      PartitionMeaning(text[1..]);
      assert text == [text[0]] + text[1..];
    } else if text != "" {
      assert text == " " + text[1..];
    }
  }

  // `replace("Z", "+00:00")`
  function WithOffset(stamp: string): string {
    if stamp == "" then "" else (if stamp[0] == 'Z' then "+00:00" else [stamp[0]]) + WithOffset(stamp[1..])
  }

  lemma {:induction false} OffsetAppend(a: string, b: string)
    ensures WithOffset(a + b) == WithOffset(a) + WithOffset(b)
  {
    if a == "" {
      assert a + b == b;
    } else {
      OffsetAppend(a[1..], b);
      var head := if a[0] == 'Z' then "+00:00" else [a[0]];
      assert (a + b)[1..] == a[1..] + b && (a + b)[0] == a[0];
      assert WithOffset(a + b) == head + (WithOffset(a[1..]) + WithOffset(b));
    }
  }

  /** Every letter Z is replaced, and nothing else is. */
  lemma {:induction false} OffsetMeaning(a: string, b: string)
    requires 'Z' !in a
    ensures WithOffset(a) == a
    ensures WithOffset(a + ("Z" + b)) == a + "+00:00" + WithOffset(b)
  {
    OffsetAppend(a, "Z" + b);
    assert ("Z" + b)[1..] == b;
    if a != "" {
      OffsetMeaning(a[1..], b);
      assert a == [a[0]] + a[1..];
    }
  }

  function InstantOf(parsers: Parsers, line: StreamLine): Option<int> {
    parsers.instant(WithOffset(FirstWord(line.text)))
  }

  function FieldOr(fields: map<string, string>, name: string, default: string): string {
    if name in fields then fields[name] else default
  }

  function ParseLine(c: Container, parsers: Parsers, line: StreamLine, seqNo: nat): Option<Record> {
    match InstantOf(parsers, line)
    case None => None
    case Some(ts) =>
      var payload := AfterFirstWord(line.text);
      var fields := match parsers.jsonObject(payload) case Some(parsed) => parsed case None => map[];
      Some(LogRecord(c.dockerHost, c.containerName, c.containerId, ts, seqNo, StreamName(line.stream),
                     FieldOr(fields, "level", DEFAULT_LEVEL), FieldOr(fields, "message", payload),
                     fields - {"message", "level"}, line.text))
  }

  // A line is its timestamp and its payload around the first blank, or all timestamp.
  ghost predicate Parts(text: string, stamp: string, payload: string) {
    ' ' !in stamp && (text == stamp + " " + payload || (text == stamp && payload == ""))
  }

  // The object's own entry, or what stands for it.
  ghost predicate EntryOr(o: Option<map<string, string>>, name: string, default: string, entry: string) {
    entry == if o.Some? && name in o.value then o.value[name] else default
  }

  // What a record says about the line it was made of.
  ghost predicate Describes(c: Container, parsers: Parsers, line: StreamLine, r: Record) {
    && r.LogRecord?
    && r.dockerHost == c.dockerHost && r.containerName == c.containerName && r.containerId == c.containerId
    && r.stream == (if line.stream == STDOUT then "stdout" else "stderr")
    && r.raw == line.text
    && forall stamp, payload :: Parts(line.text, stamp, payload) ==>
         && parsers.instant(WithOffset(stamp)) == Some(r.ts)
         && EntryOr(parsers.jsonObject(payload), "message", payload, r.message)
         && EntryOr(parsers.jsonObject(payload), "level", "info", r.level)
         && r.fields == match parsers.jsonObject(payload)
                        case None => map[]
                        case Some(o) => map name | name in o && name != "message" && name != "level" :: o[name]
  }

  lemma {:induction false} PartsUnique(text: string, stamp: string, payload: string)
    requires Parts(text, stamp, payload)
    ensures stamp == FirstWord(text) && payload == AfterFirstWord(text)
  {
    if stamp != "" {
      assert text[0] == stamp[0] && stamp[0] in stamp;
      PartsUnique(text[1..], stamp[1..], payload);
    }
  }

  /** The instant of a line is what the parser makes of its timestamp. */
  lemma InstantMeaning(parsers: Parsers, line: StreamLine, stamp: string, payload: string)
    requires Parts(line.text, stamp, payload)
    ensures InstantOf(parsers, line) == parsers.instant(WithOffset(stamp))
  {
    PartsUnique(line.text, stamp, payload);
  }

  lemma ParsedDescribes(c: Container, parsers: Parsers, line: StreamLine, seqNo: nat)
    ensures ParseLine(c, parsers, line, seqNo).Some? ==>
              Describes(c, parsers, line, ParseLine(c, parsers, line, seqNo).value)
  {
    var parsed := ParseLine(c, parsers, line, seqNo);
    if parsed.Some? {
      forall stamp, payload | Parts(line.text, stamp, payload)
        ensures stamp == FirstWord(line.text) && payload == AfterFirstWord(line.text)
      {
        PartsUnique(line.text, stamp, payload);
      }
    }
  }

  // What the listener ships for these lines, the first of them being number one.
  function Shipped(c: Container, parsers: Parsers, lines: seq<StreamLine>): seq<Record> {
    if lines == [] then []
    else
      var init, last := lines[..|lines| - 1], lines[|lines| - 1];
      match ParseLine(c, parsers, last, |lines|)
      case None => Shipped(c, parsers, init)
      case Some(record) => Shipped(c, parsers, init) + [record]
  }

  /** A record's number is the position of its line among all lines, dropped ones included. */
  lemma {:induction false} SeqIsPosition(c: Container, parsers: Parsers, lines: seq<StreamLine>)
    ensures forall r :: r in Shipped(c, parsers, lines) ==>
              1 <= r.seqNo <= |lines| && ParseLine(c, parsers, lines[r.seqNo - 1], r.seqNo) == Some(r)
  {
    if lines != [] {
      SeqIsPosition(c, parsers, lines[..|lines| - 1]);
    }
  }

  /** Every shipped record describes its line. */
  lemma ShippedDescribes(c: Container, parsers: Parsers, lines: seq<StreamLine>)
    ensures forall r :: r in Shipped(c, parsers, lines) ==>
              1 <= r.seqNo <= |lines| && Describes(c, parsers, lines[r.seqNo - 1], r)
  {
    SeqIsPosition(c, parsers, lines);
    forall r | r in Shipped(c, parsers, lines)
      ensures Describes(c, parsers, lines[r.seqNo - 1], r)
    {
      ParsedDescribes(c, parsers, lines[r.seqNo - 1], r.seqNo);
    }
  }

  /** So numbers increase strictly within one run of a listener. */
  lemma {:induction false} SeqAscends(c: Container, parsers: Parsers, lines: seq<StreamLine>)
    ensures forall i, j :: 0 <= i < j < |Shipped(c, parsers, lines)| ==>
              Shipped(c, parsers, lines)[i].seqNo < Shipped(c, parsers, lines)[j].seqNo
  {
    if lines != [] {
      var before := Shipped(c, parsers, lines[..|lines| - 1]);
      SeqAscends(c, parsers, lines[..|lines| - 1]);
      SeqIsPosition(c, parsers, lines[..|lines| - 1]);
      assert forall i :: 0 <= i < |before| ==> before[i] in before;
    }
  }

  /** Every line with a timestamp is shipped. */
  lemma {:induction false} StampedIsShipped(c: Container, parsers: Parsers, lines: seq<StreamLine>, k: nat)
    requires k < |lines| && InstantOf(parsers, lines[k]).Some?
    ensures ParseLine(c, parsers, lines[k], k + 1).value in Shipped(c, parsers, lines)
  {
    if k < |lines| - 1 {
      StampedIsShipped(c, parsers, lines[..|lines| - 1], k);
    }
  }

  // What the schema takes to identify a record.
  predicate SameIdentity(r: Record, t: Record) {
    && r.dockerHost == t.dockerHost && r.containerName == t.containerName && r.containerId == t.containerId
    && r.ts == t.ts && r.seqNo == t.seqNo
  }

  // Two runs ship records of one identity: one from the first run, one from the second.
  ghost predicate Collide(c: Container, parsers: Parsers, a: seq<StreamLine>, b: seq<StreamLine>) {
    exists r, t :: r in Shipped(c, parsers, a) && t in Shipped(c, parsers, b) && SameIdentity(r, t)
  }

  // The k-th lines of both runs carry the same timestamp.
  predicate SameInstantAt(parsers: Parsers, a: seq<StreamLine>, b: seq<StreamLine>, k: nat) {
    k < |a| && k < |b| && InstantOf(parsers, a[k]).Some? && InstantOf(parsers, a[k]) == InstantOf(parsers, b[k])
  }

  // Identity and origin of a shipped record.
  lemma ShippedIdentity(c: Container, parsers: Parsers, lines: seq<StreamLine>, r: Record)
    requires r in Shipped(c, parsers, lines)
    ensures r.dockerHost == c.dockerHost && r.containerName == c.containerName && r.containerId == c.containerId
    ensures 1 <= r.seqNo <= |lines| && InstantOf(parsers, lines[r.seqNo - 1]) == Some(r.ts)
  {
    SeqIsPosition(c, parsers, lines);
  }

  lemma StampedIdentity(c: Container, parsers: Parsers, lines: seq<StreamLine>, k: nat) returns (r: Record)
    requires k < |lines| && InstantOf(parsers, lines[k]).Some?
    ensures r in Shipped(c, parsers, lines) && r.seqNo == k + 1
  {
    StampedIsShipped(c, parsers, lines, k);
    r := ParseLine(c, parsers, lines[k], k + 1).value;
  }

  // `run_container_listener` on these lines: each record describes the line whose position it
  // carries, and every line with a timestamp has one.
  method RunContainerListener(c: Container, parsers: Parsers, lines: seq<StreamLine>) returns (shipped: seq<Record>)
    ensures shipped == Shipped(c, parsers, lines)
    ensures forall r :: r in shipped ==> 1 <= r.seqNo <= |lines| && Describes(c, parsers, lines[r.seqNo - 1], r)
    ensures forall k, stamp, payload ::
              0 <= k < |lines| && Parts(lines[k].text, stamp, payload) && parsers.instant(WithOffset(stamp)).Some? ==>
                exists r :: r in shipped && r.seqNo == k + 1
  {
    var seqCounter := 1;
    shipped := [];
    for i := 0 to |lines|
      invariant seqCounter == i + 1
      invariant shipped == Shipped(c, parsers, lines[..i])
    {
      assert lines[..i + 1][..i] == lines[..i];
      var record := ParseLine(c, parsers, lines[i], seqCounter);
      seqCounter := seqCounter + 1;
      if record.Some? {
        shipped := shipped + [record.value];
      }
    }
    assert lines[..|lines|] == lines;
    ShippedDescribes(c, parsers, lines);
    forall k, stamp, payload | 0 <= k < |lines| && Parts(lines[k].text, stamp, payload)
                               && parsers.instant(WithOffset(stamp)).Some?
      ensures exists r :: r in shipped && r.seqNo == k + 1
    {
      InstantMeaning(parsers, lines[k], stamp, payload);
      var r := StampedIdentity(c, parsers, lines, k);
    }
  }

  /** The number is meant to make records unique, but every listener starts over at one. Two runs
      on one container collide exactly if they read, at the same position, lines of the same
      timestamp. */
  lemma RunsCollide(c: Container, parsers: Parsers, a: seq<StreamLine>, b: seq<StreamLine>)
    ensures Collide(c, parsers, a, b) <==> exists k: nat :: SameInstantAt(parsers, a, b, k)
  {
    if k: nat :| SameInstantAt(parsers, a, b, k) {
      var r := StampedIdentity(c, parsers, a, k);
      var t := StampedIdentity(c, parsers, b, k);
      ShippedIdentity(c, parsers, a, r);
      ShippedIdentity(c, parsers, b, t);
      assert SameIdentity(r, t);
    }
    if r, t :| r in Shipped(c, parsers, a) && t in Shipped(c, parsers, b) && SameIdentity(r, t) {
      ShippedIdentity(c, parsers, a, r);
      ShippedIdentity(c, parsers, b, t);
      assert SameInstantAt(parsers, a, b, r.seqNo - 1);
    }
  }

  /** A listener started again reads the container's log from its beginning. If its two streams
      arrive interleaved as before, it ships every record of the earlier run once more, under the
      same number. */
  lemma {:induction false} ReplayRepeats(c: Container, parsers: Parsers, lines: seq<StreamLine>, more: seq<StreamLine>)
    ensures Shipped(c, parsers, lines) <= Shipped(c, parsers, lines + more)
  {
    if more == [] {
      assert lines + more == lines;
    } else {
      ReplayRepeats(c, parsers, lines, more[..|more| - 1]);
      assert (lines + more)[..|lines + more| - 1] == lines + more[..|more| - 1];
    }
  }

  // The raw texts shipped for the stream of this name, and the lines that carry a timestamp.
  function RawsOf(name: string, records: seq<Record>): seq<string> {
    if records == [] then []
    else
      var init, last := records[..|records| - 1], records[|records| - 1];
      if last.LogRecord? && last.stream == name then RawsOf(name, init) + [last.raw] else RawsOf(name, init)
  }

  function Stamped(parsers: Parsers, lines: seq<StreamLine>): seq<string> {
    if lines == [] then []
    else
      var init, last := lines[..|lines| - 1], lines[|lines| - 1];
      if InstantOf(parsers, last).Some? then Stamped(parsers, init) + [last.text] else Stamped(parsers, init)
  }

  lemma OneMoreRaw(name: string, records: seq<Record>, r: Record)
    ensures RawsOf(name, records + [r])
            == RawsOf(name, records) + if r.LogRecord? && r.stream == name then [r.raw] else []
  {
    assert (records + [r])[..|records|] == records;
  }

  lemma OneMoreStamped(parsers: Parsers, lines: seq<StreamLine>, line: StreamLine)
    ensures Stamped(parsers, lines + [line])
            == Stamped(parsers, lines) + if InstantOf(parsers, line).Some? then [line.text] else []
  {
    assert (lines + [line])[..|lines|] == lines;
  }

  lemma {:induction false} ShippedOfSource(c: Container, parsers: Parsers, lines: seq<StreamLine>, source: Source)
    ensures RawsOf(StreamName(source), Shipped(c, parsers, lines)) == Stamped(parsers, StreamMerge.Only(source, lines))
  {
    if lines != [] {
      var init, last := lines[..|lines| - 1], lines[|lines| - 1];
      ShippedOfSource(c, parsers, init, source);
      var record := ParseLine(c, parsers, last, |lines|);
      if record.Some? {
        OneMoreRaw(StreamName(source), Shipped(c, parsers, init), record.value);
      }
      OneMoreStamped(parsers, StreamMerge.Only(source, init), last);
    }
  }

  // The listener on the two streams of its command; `lines` is what the merge hands it.
  method Listen(c: Container, parsers: Parsers, stdout: seq<string>, stderr: seq<string>)
    returns (shipped: seq<Record>, lines: seq<StreamLine>, complete: bool)
    ensures forall i, j :: 0 <= i < j < |shipped| ==> shipped[i].seqNo < shipped[j].seqNo
    ensures forall r :: r in shipped ==> 1 <= r.seqNo <= |lines| && Describes(c, parsers, lines[r.seqNo - 1], r)
    ensures FirstOf(STDOUT, Only(STDOUT, lines), stdout) && FirstOf(STDERR, Only(STDERR, lines), stderr)
    ensures complete ==> |Only(STDOUT, lines)| == |stdout| && |Only(STDERR, lines)| == |stderr|
    ensures RawsOf("stdout", shipped) == Stamped(parsers, Only(STDOUT, lines))
    ensures RawsOf("stderr", shipped) == Stamped(parsers, Only(STDERR, lines))
  {
    lines, complete := MergeStreams(stdout, stderr);
    shipped := RunContainerListener(c, parsers, lines);
    SeqAscends(c, parsers, lines);
    ShippedOfSource(c, parsers, lines, STDOUT);
    ShippedOfSource(c, parsers, lines, STDERR);
  }
}
