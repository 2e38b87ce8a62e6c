/** Merging the two output streams of a command (transport.py: _merge_streams). */
module StreamMerge {
  import opened Wrappers

  datatype Source = STDOUT | STDERR

  datatype StreamLine = StreamLine(stream: Source, text: string)

  // A queue item; None is the sentinel a pump posts at the end of its stream.
  type Item = Option<StreamLine>

  // `rstrip("\n")`
  function WithoutNewlines(raw: string): (text: string)
    ensures text <= raw && forall i :: |text| <= i < |raw| ==> raw[i] == '\n'
    ensures text == "" || text[|text| - 1] != '\n'
  {
    if raw != "" && raw[|raw| - 1] == '\n' then WithoutNewlines(raw[..|raw| - 1]) else raw
  }

  function LineFrom(source: Source, raw: string): StreamLine {
    StreamLine(source, WithoutNewlines(raw))
  }

  // What one stream should contribute, in order.
  function LinesFrom(source: Source, raws: seq<string>): seq<StreamLine> {
    seq(|raws|, i requires 0 <= i < |raws| => LineFrom(source, raws[i]))
  }

  // What one stream has contributed to a merged sequence.
  function Only(source: Source, lines: seq<StreamLine>): seq<StreamLine> {
    if lines == [] then []
    else
      var init, last := lines[..|lines| - 1], lines[|lines| - 1];
      if last.stream == source then Only(source, init) + [last] else Only(source, init)
  }

  // The lines of one stream waiting in the queue, and how many sentinels are.
  function Queued(source: Source, queue: seq<Item>): seq<StreamLine> {
    if queue == [] then []
    else if queue[0].Some? && queue[0].value.stream == source then [queue[0].value] + Queued(source, queue[1..])
    else Queued(source, queue[1..])
  }

  function Sentinels(queue: seq<Item>): nat {
    if queue == [] then 0 else (if queue[0].None? then 1 else 0) + Sentinels(queue[1..])
  }

  lemma {:induction false} QueueAppend(source: Source, queue: seq<Item>, item: Item)
    ensures Queued(source, queue + [item])
            == Queued(source, queue) + if item.Some? && item.value.stream == source then [item.value] else []
    ensures Sentinels(queue + [item]) == Sentinels(queue) + if item.None? then 1 else 0
  {
    if queue != [] {
      QueueAppend(source, queue[1..], item);
      assert (queue + [item])[1..] == queue[1..] + [item];
    }
  }

  lemma {:induction false} SentinelInside(queue: seq<Item>)
    requires queue != [] && queue[|queue| - 1].None?
    ensures Sentinels(queue) > 0
  {
    if |queue| > 1 {
      SentinelInside(queue[1..]);
    }
  }

  // Where one stream is: emitted, queued and unread lines make up its input, in this order.
  ghost predicate Accounted(source: Source, input: seq<string>, emitted: seq<StreamLine>, queue: seq<Item>,
                            unread: seq<string>)
  {
    && |unread| <= |input| && unread == input[|input| - |unread|..]
    && Only(source, emitted) + Queued(source, queue) == LinesFrom(source, input[..|input| - |unread|])
  }

  // A pump moves its next line into the queue; the other stream is unaffected.
  lemma PumpLine(source: Source, input: seq<string>, emitted: seq<StreamLine>, queue: seq<Item>, unread: seq<string>,
                 line: StreamLine)
    requires Accounted(source, input, emitted, queue, unread)
    requires line.stream == source ==> unread != [] && line == LineFrom(source, unread[0])
    ensures Accounted(source, input, emitted, queue + [Some(line)],
                      if line.stream == source then unread[1..] else unread)
  {
    QueueAppend(source, queue, Some(line));
    if line.stream == source {
      var k := |input| - |unread|;
      assert LinesFrom(source, input[..k + 1]) == LinesFrom(source, input[..k]) + [line];
    }
  }

  // The consumer emits the first line of the queue.
  lemma EmitLine(source: Source, input: seq<string>, emitted: seq<StreamLine>, queue: seq<Item>, unread: seq<string>)
    requires Accounted(source, input, emitted, queue, unread) && queue != [] && queue[0].Some?
    ensures Accounted(source, input, emitted + [queue[0].value], queue[1..], unread)
  {
  }

  lemma Prefix(source: Source, input: seq<string>, emitted: seq<StreamLine>, queue: seq<Item>, unread: seq<string>)
    requires Accounted(source, input, emitted, queue, unread)
    ensures Only(source, emitted) <= LinesFrom(source, input)
    ensures queue == [] && unread == [] ==> Only(source, emitted) == LinesFrom(source, input)
  {
    var k := |input| - |unread|;
    assert LinesFrom(source, input[..k]) == LinesFrom(source, input)[..k];
  }

  // The end of the queue: every sentinel posted and not consumed yet is in it, and behind the
  // second one there is nothing.
  ghost predicate Ending(queue: seq<Item>, outOpen: bool, errOpen: bool, remaining: nat) {
    && (if outOpen then 1 else 0) + (if errOpen then 1 else 0) + Sentinels(queue) == remaining
    && (!outOpen && !errOpen && queue != [] ==> queue[|queue| - 1].None?)
  }

  lemma LineIntoQueue(queue: seq<Item>, outOpen: bool, errOpen: bool, remaining: nat, line: StreamLine)
    requires Ending(queue, outOpen, errOpen, remaining) && (outOpen || errOpen)
    ensures Ending(queue + [Some(line)], outOpen, errOpen, remaining)
  {
    QueueAppend(STDOUT, queue, Some(line));
  }

  lemma SentinelIntoQueue(source: Source, input: seq<string>, emitted: seq<StreamLine>, queue: seq<Item>,
                          unread: seq<string>)
    requires Accounted(source, input, emitted, queue, unread)
    ensures Accounted(source, input, emitted, queue + [None], unread)
    ensures Sentinels(queue + [None]) == Sentinels(queue) + 1
  {
    QueueAppend(source, queue, None);
  }

  lemma QueueShrinks(queue: seq<Item>, outOpen: bool, errOpen: bool, remaining: nat)
    requires Ending(queue, outOpen, errOpen, remaining) && queue != []
    ensures queue[0].None? ==> remaining > 0 && Ending(queue[1..], outOpen, errOpen, remaining - 1)
    ensures queue[0].Some? ==> Ending(queue[1..], outOpen, errOpen, remaining)
  {
  }

  // `text` is `raw` without the newlines at its end.
  ghost predicate CutFrom(text: string, raw: string) {
    && text <= raw
    && (text == "" || text[|text| - 1] != '\n')
    && forall i :: |text| <= i < |raw| ==> raw[i] == '\n'
  }

  // These lines are the first ones of this stream, cut, in order.
  ghost predicate FirstOf(source: Source, lines: seq<StreamLine>, raws: seq<string>) {
    |lines| <= |raws| && forall i :: 0 <= i < |lines| ==> lines[i].stream == source && CutFrom(lines[i].text, raws[i])
  }

  lemma PrefixIsFirst(source: Source, lines: seq<StreamLine>, raws: seq<string>)
    requires lines <= LinesFrom(source, raws)
    ensures FirstOf(source, lines, raws)
  {
    forall i | 0 <= i < |lines|
      ensures lines[i].stream == source && CutFrom(lines[i].text, raws[i])
    {
      assert lines[i] == LinesFrom(source, raws)[i] == LineFrom(source, raws[i]);
    }
  }

  // What one stream has come to when the consumer stops.
  lemma EmittedSoFar(source: Source, input: seq<string>, emitted: seq<StreamLine>, queue: seq<Item>,
                     unread: seq<string>)
    requires Accounted(source, input, emitted, queue, unread)
    ensures FirstOf(source, Only(source, emitted), input)
    ensures queue == [] && unread == [] ==> |Only(source, emitted)| == |input|
  {
    Prefix(source, input, emitted, queue, unread);
    PrefixIsFirst(source, Only(source, emitted), input);
  }

  // The merge of two streams that end. The pumps and the consumer take turns in any order:
  // each turn of the loop is one of their steps, and some step is always possible. The
  // consumer may also be cancelled in between.
  method MergeStreams(stdout: seq<string>, stderr: seq<string>) returns (emitted: seq<StreamLine>, complete: bool)
    ensures FirstOf(STDOUT, Only(STDOUT, emitted), stdout) && FirstOf(STDERR, Only(STDERR, emitted), stderr)
    ensures complete ==> |Only(STDOUT, emitted)| == |stdout| && |Only(STDERR, emitted)| == |stderr|
  {
    var queue: seq<Item> := [];
    var out, err := stdout, stderr;
    var outOpen, errOpen := true, true;
    var remaining: nat := 2;
    emitted, complete := [], true;
    while remaining > 0
      invariant complete
      invariant Accounted(STDOUT, stdout, emitted, queue, out) && Accounted(STDERR, stderr, emitted, queue, err)
      invariant (!outOpen ==> out == []) && (!errOpen ==> err == [])
      invariant Ending(queue, outOpen, errOpen, remaining)
      decreases 2 * |out| + 2 * |err| + (if outOpen then 2 else 0) + (if errOpen then 2 else 0) + |queue|
    {
      if * {
        complete := false;
        break;
      }
      if {
        case out != [] =>
          var line := LineFrom(STDOUT, out[0]);
          PumpLine(STDOUT, stdout, emitted, queue, out, line);
          PumpLine(STDERR, stderr, emitted, queue, err, line);
          LineIntoQueue(queue, outOpen, errOpen, remaining, line);
          queue, out := queue + [Some(line)], out[1..];
        case err != [] =>
          var line := LineFrom(STDERR, err[0]);
          PumpLine(STDOUT, stdout, emitted, queue, out, line);
          PumpLine(STDERR, stderr, emitted, queue, err, line);
          LineIntoQueue(queue, outOpen, errOpen, remaining, line);
          queue, err := queue + [Some(line)], err[1..];
        case outOpen && out == [] =>
          SentinelIntoQueue(STDOUT, stdout, emitted, queue, out);
          SentinelIntoQueue(STDERR, stderr, emitted, queue, err);
          queue, outOpen := queue + [None], false;
        case errOpen && err == [] =>
          SentinelIntoQueue(STDOUT, stdout, emitted, queue, out);
          SentinelIntoQueue(STDERR, stderr, emitted, queue, err);
          queue, errOpen := queue + [None], false;
        case queue != [] =>
          QueueShrinks(queue, outOpen, errOpen, remaining);
          if queue[0].None? {
            remaining := remaining - 1;
          } else {
            EmitLine(STDOUT, stdout, emitted, queue, out);
            EmitLine(STDERR, stderr, emitted, queue, err);
            emitted := emitted + [queue[0].value];
          }
          queue := queue[1..];
      }
    }
    if complete && queue != [] {
      SentinelInside(queue);
    }
    EmittedSoFar(STDOUT, stdout, emitted, queue, out);
    EmittedSoFar(STDERR, stderr, emitted, queue, err);
  }
}
