/** The ingestion consumer (consumer.py): one cycle from the ingest list to the streams. */
module Consumer {
  import opened RedisKeys
  import opened RedisStore
  import opened Records

  // One queued XADD.
  datatype Command = Command(key: string, data: string)

  function CommandFor(codec: Codec, r: Record): Command {
    Command(StreamKey(r.dockerHost, KindOf(r)), codec.encode(r))
  }

  // The pipeline a batch leads to: malformed items are dropped, the rest keeps its order.
  function Commands(codec: Codec, batch: seq<string>): seq<Command> {
    if batch == [] then []
    else
      var init, raw := batch[..|batch| - 1], batch[|batch| - 1];
      match codec.decode(raw)
      case None => Commands(codec, init)
      case Some(record) => Commands(codec, init) + [CommandFor(codec, record)]
  }

  /** A log record is added to its host's log stream, a metric to its host's metric stream, as it
      is serialised; a malformed item is not added at all, and the batch keeps its order. */
  lemma CommandsMeaning(codec: Codec, batch: seq<string>, raw: string)
    ensures Commands(codec, []) == []
    ensures Commands(codec, batch + [raw]) == Commands(codec, batch) +
              match codec.decode(raw)
              case None => []
              case Some(r) =>
                [Command("logsump:stream:" + r.dockerHost + (if r.LogRecord? then ":log" else ":metric"),
                         codec.encode(r))]
  {
    assert (batch + [raw])[..|batch|] == batch;
    var r := codec.decode(raw);
    if r.Some? {
      KeyTexts(r.value.dockerHost, "");
    }
  }

  // The store after `commands` ran one by one, the k-th of them at server time `clock(k)`.
  function Executed(store: Store, commands: seq<Command>, clock: nat -> nat): Store {
    if commands == [] then store
    else
      var init, last := commands[..|commands| - 1], commands[|commands| - 1];
      WithAdded(Executed(store, init, clock), last.key, last.data, clock(|init|))
  }

  lemma OneMoreCommand(store: Store, commands: seq<Command>, c: Command, clock: nat -> nat)
    ensures Executed(store, commands + [c], clock)
            == WithAdded(Executed(store, commands, clock), c.key, c.data, clock(|commands|))
  {
  }

  // Where a cycle meets a Redis error. A pop may have taken effect before its reply was lost, and
  // any of the commands of a pipeline may have: it is no transaction.
  datatype Fault =
    | NoFault
    | BlpopFails(lost: bool)
    | LpopFails(lost: bool)
    | ExecuteFails(ran: set<nat>)

  // Those of the commands whose position is in `ran`.
  function Ran(commands: seq<Command>, ran: set<nat>): seq<Command> {
    if commands == [] then []
    else
      var init, last := commands[..|commands| - 1], commands[|commands| - 1];
      if |init| in ran then Ran(init, ran) + [last] else Ran(init, ran)
  }

  // Those of the queued commands that take effect.
  function Effective(commands: seq<Command>, fault: Fault): seq<Command> {
    if fault.ExecuteFails? then Ran(commands, fault.ran) else commands
  }

  function Least(a: nat, b: nat): nat {
    if a < b then a else b
  }

  // How many items a whole batch takes off a list of `available` ones.
  function Taken(available: nat, batchSize: int): nat {
    Least(available, if batchSize > 1 then batchSize else 1)
  }

  // How many items one cycle takes off the list, kept or lost.
  function CycleTakes(available: nat, batchSize: int, fault: Fault): nat {
    match fault
    case BlpopFails(lost) => if lost then Least(available, 1) else 0
    case LpopFails(lost) => if lost || batchSize <= 1 then Taken(available, batchSize) else Least(available, 1)
    case _ => Taken(available, batchSize)
  }

  // The commands of one cycle that take effect: none after a failed pop, some of them if the
  // pipeline fails.
  function CycleRuns(codec: Codec, ingest: seq<string>, batchSize: int, fault: Fault): seq<Command> {
    var commands := Commands(codec, ingest[..Taken(|ingest|, batchSize)]);
    match fault
    case BlpopFails(_) => []
    case LpopFails(_) => if batchSize > 1 then [] else commands
    case _ => Effective(commands, fault)
  }

  // Whether a cycle ends in an error: a fault only counts if the cycle gets as far as its command.
  predicate CycleRaises(codec: Codec, ingest: seq<string>, batchSize: int, fault: Fault) {
    match fault
    case NoFault => false
    case BlpopFails(_) => true
    case LpopFails(_) => ingest != [] && batchSize > 1
    case ExecuteFails(_) => Commands(codec, ingest[..Taken(|ingest|, batchSize)]) != []
  }

  // `_ingest_batch`.
  method IngestBatch(codec: Codec, redis: Redis, batch: seq<string>, clock: nat -> nat, fault: Fault) returns (ok: bool)
    modifies redis`streams
    ensures redis.streams == Executed(old(redis.streams), Effective(Commands(codec, batch), fault), clock)
    ensures ok <==> !fault.ExecuteFails? || Commands(codec, batch) == []
  {
    var pipe := Queue(codec, batch);
    ok := true;
    if pipe != [] {
      Execute(redis, pipe, clock, fault);
      ok := !fault.ExecuteFails?;
    }
  }

  // Its loop over the batch.
  method Queue(codec: Codec, batch: seq<string>) returns (pipe: seq<Command>)
    ensures pipe == Commands(codec, batch)
  {
    pipe := [];
    for i := 0 to |batch|
      invariant pipe == Commands(codec, batch[..i])
    {
      assert batch[..i + 1][..i] == batch[..i];
      var record := codec.decode(batch[i]);
      if record.Some? {
        pipe := pipe + [CommandFor(codec, record.value)];
      }
    }
    assert batch[..|batch|] == batch;
  }

  // `pipe.execute()`
  method Execute(redis: Redis, pipe: seq<Command>, clock: nat -> nat, fault: Fault)
    modifies redis`streams
    ensures redis.streams == Executed(old(redis.streams), Effective(pipe, fault), clock)
  {
    var done := 0;
    for k := 0 to |pipe|
      invariant done == |Effective(pipe[..k], fault)|
      invariant redis.streams == Executed(old(redis.streams), Effective(pipe[..k], fault), clock)
    {
      assert pipe[..k + 1][..k] == pipe[..k];
      if !fault.ExecuteFails? || k in fault.ran {
        OneMoreCommand(old(redis.streams), Effective(pipe[..k], fault), pipe[k], clock);
        assert Effective(pipe[..k + 1], fault) == Effective(pipe[..k], fault) + [pipe[k]];
        redis.XAdd(pipe[k].key, pipe[k].data, clock(done));
        done := done + 1;
      }
    }
    assert pipe[..|pipe|] == pipe;
  }

  // The two pops of a cycle: nothing, an error, or a batch.
  method PopBatch(redis: Redis, batchSize: int, fault: Fault) returns (raised: bool, batch: seq<string>)
    modifies redis`ingest
    ensures redis.ingest == old(redis.ingest)[CycleTakes(|old(redis.ingest)|, batchSize, fault)..]
    ensures raised <==> fault.BlpopFails? || (fault.LpopFails? && old(redis.ingest) != [] && batchSize > 1)
    ensures !raised ==> batch == old(redis.ingest)[..Taken(|old(redis.ingest)|, batchSize)]
  {
    raised, batch := fault.BlpopFails?, [];
    if raised {
      if fault.lost {
        var dropped := redis.LPop(1);
      }
      return;
    }
    batch := redis.LPop(1);
    assert batch == [] || (batch == old(redis.ingest)[..1] && redis.ingest == old(redis.ingest)[1..]);
    if batch != [] && batchSize > 1 {
      raised := fault.LpopFails?;
      if !raised || fault.lost {
        var rest := redis.LPop(batchSize - 1);
        batch := batch + rest;
      }
    }
  }

  // `_consume_once`; `ok` is false where it raises a Redis error for `run_consumer` to catch.
  method ConsumeOnce(codec: Codec, redis: Redis, batchSize: int, clock: nat -> nat, fault: Fault) returns (ok: bool)
    modifies redis
    ensures redis.ingest == old(redis.ingest)[CycleTakes(|old(redis.ingest)|, batchSize, fault)..]
    ensures redis.streams == Executed(old(redis.streams), CycleRuns(codec, old(redis.ingest), batchSize, fault), clock)
    ensures ok <==> !CycleRaises(codec, old(redis.ingest), batchSize, fault)
  {
    var raised, batch := PopBatch(redis, batchSize, fault);
    if raised {
      return false;
    }
    if batch == [] {
      return true;
    }
    ok := IngestBatch(codec, redis, batch, clock, fault);
  }
}
