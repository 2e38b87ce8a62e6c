/** log-server's background work as a step machine: producers push, the consumer drains the
    ingest list, the trimmer sweeps, the clock advances, and Redis may fail at any command. */
module LogServer {
  import opened Wrappers
  import opened RedisKeys
  import opened Streams
  import opened RedisStore
  import opened Records
  import opened Consumer
  import opened Trimmer

  datatype Target = Target(dockerHost: string, kind: Kind)

  function KeyOf(t: Target): string {
    StreamKey(t.dockerHost, t.kind)
  }

  function TargetOf(r: Record): Target {
    Target(r.dockerHost, KindOf(r))
  }

  datatype Config = Config(codec: Codec, batchSize: int, daemonIds: seq<string>, retention: Retention)

  // The consumer polls with BLPOP, fills its batch with LPOP, then stores it item by item.
  datatype Phase = Polling | Filling | Storing

  datatype Sweep = Asleep | Sweeping(at: nat, todo: seq<Target>)

  // The `index`-th push was stored in `target` as `entry`.
  datatype Placement = Placement(index: nat, target: Target, entry: Entry)

  // The last five fields are the history of the run; no step reads them.
  datatype Server = Server(
    now: nat,
    ingest: seq<string>,
    hand: seq<string>,
    phase: Phase,
    streams: Store,
    sweep: Sweep,
    pushed: seq<string>,
    settled: nat,
    placed: seq<Placement>,
    faults: nat,
    lastTrim: map<Target, nat>)

  datatype Act =
    | Tick(ms: nat)
    | Push(raw: string)
    | Blpop
    | Lpop
    | StoreNext
    | StoreFails
    | CycleEnds
    | RedisFails(lost: nat)
    | SweepStarts
    | TrimNext(works: bool)
    | SweepEnds

  function Targets(daemonIds: seq<string>): seq<Target> {
    if daemonIds == [] then []
    else [Target(daemonIds[0], LOG), Target(daemonIds[0], METRIC)] + Targets(daemonIds[1..])
  }

  // How much LPOP asks for on top of the item BLPOP returned.
  function More(batchSize: int): nat {
    if batchSize > 1 then batchSize - 1 else 0
  }

  predicate CanAct(cfg: Config, s: Server, a: Act) {
    match a
    case Tick(_) => true
    case Push(_) => true
    case Blpop => s.phase.Polling? && s.ingest != []
    case Lpop => s.phase.Filling?
    case StoreNext => s.phase.Storing? && s.hand != []
    case StoreFails => s.phase.Storing? && s.hand != []
    case CycleEnds => s.phase.Storing? && s.hand == []
    case RedisFails(lost) =>
      lost <= Least(|s.ingest|, match s.phase case Polling => 1 case Filling => More(cfg.batchSize) case Storing => 0)
    case SweepStarts => s.sweep.Asleep?
    case TrimNext(_) => s.sweep.Sweeping? && s.sweep.todo != []
    case SweepEnds => s.sweep.Sweeping? && s.sweep.todo == []
  }

  // consumer.py:77-91 for one item.
  function OnStore(cfg: Config, s: Server): Server
    requires s.hand != []
  {
    var rest := s.(hand := s.hand[1..], settled := s.settled + 1);
    match cfg.codec.decode(s.hand[0])
    case None => rest
    case Some(record) =>
      var key, data := KeyOf(TargetOf(record)), cfg.codec.encode(record);
      var id := NextId(StreamAt(s.streams, key).lastId, s.now);
      rest.(streams := WithAdded(s.streams, key, data, s.now),
            placed := s.placed + [Placement(s.settled, TargetOf(record), Entry(id, Some(data)))])
  }

  // trimmer.py:67-80 for one stream.
  function OnTrim(cfg: Config, s: Server, works: bool): Server
    requires s.sweep.Sweeping? && s.sweep.todo != []
  {
    var t := s.sweep.todo[0];
    var rest := s.(sweep := Sweeping(s.sweep.at, s.sweep.todo[1..]));
    if works
    then rest.(streams := WithTrimmed(s.streams, KeyOf(t), MinId(cfg.retention, t.kind, s.sweep.at)),
               lastTrim := s.lastTrim[t := s.sweep.at])
    else rest
  }

  function Next(cfg: Config, s: Server, a: Act): Server
    requires CanAct(cfg, s, a)
  {
    match a
    case Tick(ms) => s.(now := s.now + ms)
    case Push(raw) => s.(ingest := s.ingest + [raw], pushed := s.pushed + [raw])
    case Blpop => s.(hand := [s.ingest[0]], ingest := s.ingest[1..], phase := Filling)
    case Lpop =>
      var n := Least(|s.ingest|, More(cfg.batchSize));
      s.(hand := s.hand + s.ingest[..n], ingest := s.ingest[n..], phase := Storing)
    case StoreNext => OnStore(cfg, s)
    case StoreFails => s.(hand := s.hand[1..], settled := s.settled + 1, faults := s.faults + 1)
    case CycleEnds => s.(phase := Polling)
    case RedisFails(lost) =>
      s.(hand := [], ingest := s.ingest[lost..], phase := Polling,
         settled := s.settled + |s.hand| + lost, faults := s.faults + 1)
    case SweepStarts => s.(sweep := Sweeping(s.now, Targets(cfg.daemonIds)))
    case TrimNext(works) => OnTrim(cfg, s, works)
    case SweepEnds => s.(sweep := Asleep)
  }

  ghost predicate Steps(cfg: Config, s: Server, a: Act, e: Server) {
    CanAct(cfg, s, a) && e == Next(cfg, s, a)
  }

  const FRESH := Server(0, [], [], Polling, map[], Asleep, [], 0, [], 0, map[])

  ghost predicate CanServe(cfg: Config, s: Server, acts: seq<Act>)
    decreases |acts|, 0
  {
    acts == [] || (CanServe(cfg, s, acts[..|acts| - 1])
                   && CanAct(cfg, Served(cfg, s, acts[..|acts| - 1]), acts[|acts| - 1]))
  }

  ghost function Served(cfg: Config, s: Server, acts: seq<Act>): Server
    requires CanServe(cfg, s, acts)
    decreases |acts|, 1
  {
    if acts == [] then s
    else Next(cfg, Served(cfg, s, acts[..|acts| - 1]), acts[|acts| - 1])
  }

  // ---------- What the history means ----------

  // Everything that was ever stored in one stream.
  function EntriesOf(placed: seq<Placement>, t: Target): seq<Entry> {
    if placed == [] then []
    else
      var init, last := placed[..|placed| - 1], placed[|placed| - 1];
      if last.target == t then EntriesOf(init, t) + [last.entry] else EntriesOf(init, t)
  }

  // The records among `raws` that belong to one stream.
  function Routed(codec: Codec, raws: seq<string>, t: Target): seq<Record> {
    if raws == [] then []
    else
      var init, raw := raws[..|raws| - 1], raws[|raws| - 1];
      match codec.decode(raw)
      case Some(record) => if TargetOf(record) == t then Routed(codec, init, t) + [record] else Routed(codec, init, t)
      case None => Routed(codec, init, t)
  }

  function Payloads(entries: seq<Entry>): seq<Option<string>> {
    seq(|entries|, i requires 0 <= i < |entries| => entries[i].data)
  }

  function Encoded(codec: Codec, records: seq<Record>): seq<Option<string>> {
    seq(|records|, i requires 0 <= i < |records| => Some(codec.encode(records[i])))
  }

  function StreamOf(s: Server, t: Target): Stream {
    StreamAt(s.streams, KeyOf(t))
  }

  // Every push is settled, in the consumer's hands or still in the list, in this order.
  ghost predicate Lined(pushed: seq<string>, settled: nat, hand: seq<string>, ingest: seq<string>) {
    && |pushed| == settled + |hand| + |ingest|
    && hand == pushed[settled..settled + |hand|]
    && ingest == pushed[settled + |hand|..]
  }

  ghost predicate PushesConserved(s: Server) {
    Lined(s.pushed, s.settled, s.hand, s.ingest) && (s.phase.Polling? ==> s.hand == [])
  }

  // Stored pushes: in push order, each at most once, each valid and where it belongs.
  ghost predicate PlacedOnce(cfg: Config, s: Server) {
    && s.settled <= |s.pushed|
    && (forall i, j :: 0 <= i < j < |s.placed| ==> s.placed[i].index < s.placed[j].index)
    && (forall p :: p in s.placed ==>
          && p.index < s.settled
          && cfg.codec.decode(s.pushed[p.index]).Some?
          && var record := cfg.codec.decode(s.pushed[p.index]).value;
             p.target == TargetOf(record) && p.entry.data == Some(cfg.codec.encode(record)))
  }

  ghost predicate EndsWith(all: seq<Entry>, newest: seq<Entry>) {
    all == newest || (all != [] && EndsWith(all[1..], newest))
  }

  // The stream is the newest part of all that was stored in it, or all of it.
  ghost predicate NewestOf(stream: Stream, stored: seq<Entry>, whole: bool) {
    Valid(stream) && EndsWith(stored, stream.entries) && (whole ==> stream.entries == stored)
  }

  ghost predicate NothingBelow(stream: Stream, minMs: int) {
    forall e :: e in stream.entries ==> e.id.ms >= minMs
  }

  ghost predicate HoldsNewest(s: Server, t: Target) {
    NewestOf(StreamOf(s, t), EntriesOf(s.placed, t), t !in s.lastTrim)
  }

  // Nothing older than the horizon of the last successful trim is left.
  ghost predicate Retained(cfg: Config, s: Server, t: Target) {
    && (s.sweep.Sweeping? ==> s.sweep.at <= s.now)
    && (t in s.lastTrim ==>
          s.lastTrim[t] <= s.now && NothingBelow(StreamOf(s, t), s.lastTrim[t] - Grace(cfg.retention, t.kind)))
  }

  // The retention, or nothing if it is configured negative.
  function Grace(retention: Retention, kind: Kind): nat {
    if RetentionMs(retention, kind) > 0 then RetentionMs(retention, kind) else 0
  }

  // Whatever was stored and is not older than the horizon of the last trim is still there.
  ghost predicate StillHeld(stream: Stream, stored: seq<Entry>, trimmed: bool, minMs: int) {
    forall e :: e in stored && (!trimmed || e.id.ms >= minMs) ==> e in stream.entries
  }

  // A sweep looks at configured daemons only, and at none of them from an earlier time than before.
  ghost predicate Sparing(cfg: Config, s: Server, t: Target) {
    && (s.sweep.Sweeping? ==>
          && (t in s.sweep.todo ==> t.dockerHost in cfg.daemonIds)
          && (t in s.lastTrim ==> s.lastTrim[t] <= s.sweep.at))
    && (t in s.lastTrim ==> t.dockerHost in cfg.daemonIds)
    && StillHeld(StreamOf(s, t), EntriesOf(s.placed, t), t in s.lastTrim,
                 if t in s.lastTrim then s.lastTrim[t] - RetentionMs(cfg.retention, t.kind) else 0)
  }

  // `a` is `b` with some elements left out.
  ghost predicate Subsequence<T>(a: seq<T>, b: seq<T>) {
    || a == []
    || (b != [] && a[|a| - 1] == b[|b| - 1] && Subsequence(a[..|a| - 1], b[..|b| - 1]))
    || (b != [] && Subsequence(a, b[..|b| - 1]))
  }

  // What was stored in a target is what was pushed for it, less what a fault lost.
  ghost predicate StoredAsPushed(cfg: Config, s: Server, t: Target) {
    && s.settled <= |s.pushed|
    && var stored := Payloads(EntriesOf(s.placed, t));
       var due := Encoded(cfg.codec, Routed(cfg.codec, s.pushed[..s.settled], t));
       Subsequence(stored, due) && (s.faults == 0 ==> stored == due)
  }

  ghost predicate Good(cfg: Config, s: Server, t: Target) {
    && PushesConserved(s)
    && PlacedOnce(cfg, s)
    && HoldsNewest(s, t)
    && Retained(cfg, s, t)
    && Sparing(cfg, s, t)
    && StoredAsPushed(cfg, s, t)
  }
}
