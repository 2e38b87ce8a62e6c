/** The step machine of log-server covers its methods: whatever one call of `ConsumeOnce` or
    `TrimOnce` may do, faults included, is also a run of the machine. */
module ServerCycles {
  import opened RedisKeys
  import opened Records
  import opened Consumer
  import opened Trimmer
  import opened LogServer

  // `acts` takes the server from `s` to `e`.
  ghost predicate Runs(cfg: Config, s: Server, acts: seq<Act>, e: Server) {
    CanServe(cfg, s, acts) && Served(cfg, s, acts) == e
  }

  lemma OneMoreAct(cfg: Config, s: Server, acts: seq<Act>, e: Server, a: Act)
    requires Runs(cfg, s, acts, e) && CanAct(cfg, e, a)
    ensures Runs(cfg, s, acts + [a], Next(cfg, e, a))
  {
  }

  lemma FirstAct(cfg: Config, s: Server, a: Act) returns (acts: seq<Act>, e: Server)
    requires CanAct(cfg, s, a)
    ensures Runs(cfg, s, acts, e) && e == Next(cfg, s, a)
  {
    acts, e := [a], Next(cfg, s, a);
    assert acts[..0] == [];
  }

  // ---------- A consumer cycle ----------

  // A server clock that never goes back.
  ghost predicate Monotone(now: nat, clock: nat -> nat) {
    now <= clock(0) && forall i, j :: i <= j ==> clock(i) <= clock(j)
  }

  // `s` became `e`; producers and trimmer stood still, and the clock did not pass `clock(k)`.
  ghost predicate OnlyConsumed(s: Server, e: Server) {
    e.pushed == s.pushed && e.sweep == s.sweep && e.lastTrim == s.lastTrim
  }

  // The first `j` items of a batch taken in hand, stored, dropped or lost.
  ghost predicate Stored(cfg: Config, s: Server, e: Server, batch: seq<string>, j: nat, clock: nat -> nat, fault: Fault)
    requires j <= |batch| <= |s.ingest|
  {
    var done := Effective(Commands(cfg.codec, batch[..j]), fault);
    && OnlyConsumed(s, e)
    && e.phase.Storing? && e.hand == batch[j..]
    && e.ingest == s.ingest[|batch|..]
    && e.now <= clock(|done|)
    && (!fault.ExecuteFails? ==> e.faults == s.faults)
    && e.streams == Executed(s.streams, done, clock)
  }

  lemma CommandsPrefix(codec: Codec, batch: seq<string>, j: nat)
    requires j < |batch|
    ensures var done, next := Commands(codec, batch[..j]), codec.decode(batch[j]);
            Commands(codec, batch[..j + 1]) == if next.Some? then done + [CommandFor(codec, next.value)] else done
  {
    assert batch[..j + 1][..j] == batch[..j];
  }

  // The pipeline fails at this item's command.
  predicate Fails(codec: Codec, batch: seq<string>, j: nat, fault: Fault)
    requires j < |batch|
  {
    codec.decode(batch[j]).Some? && fault.ExecuteFails? && |Commands(codec, batch[..j])| !in fault.ran
  }

  lemma EffectivePrefix(codec: Codec, batch: seq<string>, j: nat, fault: Fault)
    requires j < |batch|
    ensures var done, next := Effective(Commands(codec, batch[..j]), fault), codec.decode(batch[j]);
            Effective(Commands(codec, batch[..j + 1]), fault)
            == if next.Some? && !Fails(codec, batch, j, fault) then done + [CommandFor(codec, next.value)] else done
  {
    CommandsPrefix(codec, batch, j);
    var next := codec.decode(batch[j]);
    if next.Some? {
      var before := Commands(codec, batch[..j]);
      assert (before + [CommandFor(codec, next.value)])[..|before|] == before;
    }
  }

  // BLPOP and LPOP take the batch in hand.
  lemma BatchInHand(cfg: Config, s: Server, clock: nat -> nat, fault: Fault) returns (acts: seq<Act>, e: Server)
    requires s.phase.Polling? && s.hand == [] && s.ingest != [] && Monotone(s.now, clock)
    ensures Runs(cfg, s, acts, e)
    ensures Stored(cfg, s, e, s.ingest[..Taken(|s.ingest|, cfg.batchSize)], 0, clock, fault)
  {
    var batch := s.ingest[..Taken(|s.ingest|, cfg.batchSize)];
    var d: Server;
    acts, d := FirstAct(cfg, s, Blpop);
    OneMoreAct(cfg, s, acts, d, Lpop);
    acts, e := acts + [Lpop], Next(cfg, d, Lpop);
    FirstAndMore(s.ingest, cfg.batchSize);
    assert batch[..0] == [] && batch[0..] == batch;
  }

  // The item of BLPOP and those of LPOP make up a batch.
  lemma FirstAndMore(ingest: seq<string>, batchSize: int)
    requires ingest != []
    ensures var taken, n := Taken(|ingest|, batchSize), Least(|ingest| - 1, More(batchSize));
            && n <= |ingest[1..]|
            && [ingest[0]] + ingest[1..][..n] == ingest[..taken]
            && ingest[1..][n..] == ingest[taken..]
  {
  }

  // One more item, at the time the clock gives its command.
  lemma ItemStored(cfg: Config, s: Server, acts: seq<Act>, e: Server, batch: seq<string>, j: nat, clock: nat -> nat,
                   fault: Fault)
    returns (more: seq<Act>, f: Server)
    requires Monotone(s.now, clock) && Runs(cfg, s, acts, e)
    requires j < |batch| <= |s.ingest| && Stored(cfg, s, e, batch, j, clock, fault)
    ensures Runs(cfg, s, more, f) && Stored(cfg, s, f, batch, j + 1, clock, fault)
  {
    var done := Effective(Commands(cfg.codec, batch[..j]), fault);
    var tick := Tick(clock(|done|) - e.now);
    var d := Next(cfg, e, tick);
    var a := if Fails(cfg.codec, batch, j, fault) then StoreFails else StoreNext;
    OneMoreAct(cfg, s, acts, e, tick);
    OneMoreAct(cfg, s, acts + [tick], d, a);
    more, f := acts + [tick] + [a], Next(cfg, d, a);
    NextItem(cfg, s, d, batch, j, clock, fault);
  }

  lemma NextItem(cfg: Config, s: Server, d: Server, batch: seq<string>, j: nat, clock: nat -> nat, fault: Fault)
    requires Monotone(s.now, clock) && j < |batch| <= |s.ingest| && Stored(cfg, s, d, batch, j, clock, fault)
    requires d.now == clock(|Effective(Commands(cfg.codec, batch[..j]), fault)|)
    ensures Stored(cfg, s, Next(cfg, d, if Fails(cfg.codec, batch, j, fault) then StoreFails else StoreNext),
                   batch, j + 1, clock, fault)
  {
    var done := Effective(Commands(cfg.codec, batch[..j]), fault);
    var now := Effective(Commands(cfg.codec, batch[..j + 1]), fault);
    EffectivePrefix(cfg.codec, batch, j, fault);
    assert d.hand[0] == batch[j] && d.hand[1..] == batch[j + 1..];
    assert clock(|done|) <= clock(|now|);
    if now != done {
      OneMoreCommand(s.streams, done, now[|done|], clock);
    }
  }

  lemma {:induction false} ItemsStored(cfg: Config, s: Server, j: nat, clock: nat -> nat, fault: Fault)
    returns (acts: seq<Act>, e: Server)
    requires s.phase.Polling? && s.hand == [] && s.ingest != [] && Monotone(s.now, clock)
    requires j <= Taken(|s.ingest|, cfg.batchSize)
    ensures Runs(cfg, s, acts, e)
    ensures Stored(cfg, s, e, s.ingest[..Taken(|s.ingest|, cfg.batchSize)], j, clock, fault)
  {
    if j == 0 {
      acts, e := BatchInHand(cfg, s, clock, fault);
    } else {
      acts, e := ItemsStored(cfg, s, j - 1, clock, fault);
      acts, e := ItemStored(cfg, s, acts, e, s.ingest[..Taken(|s.ingest|, cfg.batchSize)], j - 1, clock, fault);
    }
  }

  // What a cycle comes to for the list and the streams, as the consumer's method promises it.
  ghost predicate Cycled(cfg: Config, s: Server, e: Server, clock: nat -> nat, fault: Fault) {
    && OnlyConsumed(s, e)
    && e.phase.Polling? && e.hand == []
    && e.ingest == s.ingest[CycleTakes(|s.ingest|, cfg.batchSize, fault)..]
    && e.streams == Executed(s.streams, CycleRuns(cfg.codec, s.ingest, cfg.batchSize, fault), clock)
  }

  // A pipeline of which all or some commands take effect.
  lemma PipelineIsServed(cfg: Config, s: Server, clock: nat -> nat, fault: Fault) returns (acts: seq<Act>, e: Server)
    requires s.phase.Polling? && s.hand == [] && s.ingest != [] && Monotone(s.now, clock)
    requires fault.NoFault? || fault.ExecuteFails? || (fault.LpopFails? && cfg.batchSize <= 1)
    ensures Runs(cfg, s, acts, e) && Cycled(cfg, s, e, clock, fault)
    ensures !fault.ExecuteFails? ==> e.faults == s.faults
  {
    var n := Taken(|s.ingest|, cfg.batchSize);
    var batch := s.ingest[..n];
    var d: Server;
    acts, d := ItemsStored(cfg, s, n, clock, fault);
    assert batch[..n] == batch && batch[n..] == [];
    OneMoreAct(cfg, s, acts, d, CycleEnds);
    acts, e := acts + [CycleEnds], Next(cfg, d, CycleEnds);
  }

  // A pop that fails; its items may be lost.
  lemma FailedBlpopIsServed(cfg: Config, s: Server, clock: nat -> nat, lost: bool) returns (acts: seq<Act>, e: Server)
    requires s.phase.Polling? && s.hand == [] && s.ingest != []
    ensures Runs(cfg, s, acts, e) && Cycled(cfg, s, e, clock, BlpopFails(lost))
  {
    var fails := RedisFails(if lost then 1 else 0);
    acts, e := FirstAct(cfg, s, fails);
  }

  lemma FailedLpopIsServed(cfg: Config, s: Server, clock: nat -> nat, lost: bool) returns (acts: seq<Act>, e: Server)
    requires s.phase.Polling? && s.hand == [] && s.ingest != [] && cfg.batchSize > 1
    ensures Runs(cfg, s, acts, e) && Cycled(cfg, s, e, clock, LpopFails(lost))
  {
    var n := if lost then Least(|s.ingest| - 1, More(cfg.batchSize)) else 0;
    var d: Server;
    acts, d := FirstAct(cfg, s, Blpop);
    OneMoreAct(cfg, s, acts, d, RedisFails(n));
    acts, e := acts + [RedisFails(n)], Next(cfg, d, RedisFails(n));
    assert s.ingest[1..][n..] == s.ingest[1 + n..];
  }

  /** Every outcome of `ConsumeOnce` on a list that is not empty, with any fault and under any
      clock that does not go back, is reached by the machine; without a fault, without one. */
  lemma CycleIsServed(cfg: Config, s: Server, clock: nat -> nat, fault: Fault) returns (acts: seq<Act>, e: Server)
    requires s.phase.Polling? && s.hand == [] && s.ingest != [] && Monotone(s.now, clock)
    ensures CanServe(cfg, s, acts) && e == Served(cfg, s, acts)
    ensures Cycled(cfg, s, e, clock, fault)
    ensures fault.NoFault? ==> e.faults == s.faults
  {
    if fault.BlpopFails? {
      acts, e := FailedBlpopIsServed(cfg, s, clock, fault.lost);
    } else if fault.LpopFails? && cfg.batchSize > 1 {
      acts, e := FailedLpopIsServed(cfg, s, clock, fault.lost);
    } else {
      acts, e := PipelineIsServed(cfg, s, clock, fault);
    }
  }

  // ---------- A sweep ----------

  // `n` daemons into a sweep that began in `s`.
  ghost predicate Swept(cfg: Config, s: Server, e: Server, works: (nat, Kind) -> bool, n: nat)
    requires n <= |cfg.daemonIds|
  {
    && e.sweep == Sweeping(s.now, Targets(cfg.daemonIds[n..]))
    && e.ingest == s.ingest && e.hand == s.hand && e.phase == s.phase
    && (forall host, kind :: SweptTo(s.streams, e.streams, cfg.retention, s.now, cfg.daemonIds, works, n, host, kind))
  }

  lemma DaemonSwept(cfg: Config, s: Server, acts: seq<Act>, e: Server, works: (nat, Kind) -> bool, n: nat)
    returns (more: seq<Act>, f: Server)
    requires n < |cfg.daemonIds| && Runs(cfg, s, acts, e) && Swept(cfg, s, e, works, n)
    ensures Runs(cfg, s, more, f) && Swept(cfg, s, f, works, n + 1)
  {
    var host, ids := cfg.daemonIds[n], cfg.daemonIds[n..];
    assert ids[0] == host && ids[1..] == cfg.daemonIds[n + 1..];
    var log, metric := TrimNext(works(n, LOG)), TrimNext(works(n, METRIC));
    var d := Next(cfg, e, log);
    OneMoreAct(cfg, s, acts, e, log);
    OneMoreAct(cfg, s, acts + [log], d, metric);
    more, f := acts + [log] + [metric], Next(cfg, d, metric);
    assert Targets(ids)[1..][1..] == Targets(ids[1..]);
    var m := n + 1;
    forall h, k
      ensures SweptTo(s.streams, f.streams, cfg.retention, s.now, cfg.daemonIds, works, m, h, k)
    {
      SweepStep(s.streams, e.streams, f.streams, cfg.retention, s.now, cfg.daemonIds, works, n, h, k);
    }
  }

  lemma {:induction false} DaemonsSwept(cfg: Config, s: Server, works: (nat, Kind) -> bool, n: nat)
    returns (acts: seq<Act>, e: Server)
    requires s.sweep.Asleep? && n <= |cfg.daemonIds|
    ensures Runs(cfg, s, acts, e) && Swept(cfg, s, e, works, n)
  {
    if n == 0 {
      acts, e := FirstAct(cfg, s, SweepStarts);
      assert cfg.daemonIds[0..] == cfg.daemonIds;
    } else {
      acts, e := DaemonsSwept(cfg, s, works, n - 1);
      acts, e := DaemonSwept(cfg, s, acts, e, works, n - 1);
    }
  }

  /** Every outcome of `TrimOnce`, whichever of its trims fail, is reached by the machine. */
  lemma SweepIsServed(cfg: Config, s: Server, works: (nat, Kind) -> bool) returns (acts: seq<Act>, e: Server)
    requires s.sweep.Asleep?
    ensures CanServe(cfg, s, acts) && e == Served(cfg, s, acts)
    ensures e.sweep.Asleep? && e.ingest == s.ingest && e.hand == s.hand && e.phase == s.phase
    ensures forall host, kind ::
              SweptTo(s.streams, e.streams, cfg.retention, s.now, cfg.daemonIds, works, |cfg.daemonIds|, host, kind)
  {
    var d: Server;
    acts, d := DaemonsSwept(cfg, s, works, |cfg.daemonIds|);
    OneMoreAct(cfg, s, acts, d, SweepEnds);
    acts, e := acts + [SweepEnds], Next(cfg, d, SweepEnds);
  }
}
