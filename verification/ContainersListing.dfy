/** The listing loop of one daemon (containers_listing.py). */
module ContainersListing {
  import opened Wrappers
  import opened Registry

  // One line of `docker ps` output, stripped and parsed: blank, a container, no JSON at all, or
  // JSON without usable `ID` and `Names`.
  datatype Parsed = Blank | Container(ref: ContainerRef) | NotJson | Unusable

  // `Caught` is what the loop logs and retries: `TransportError` and `ValueError`.
  datatype ListingError = Caught | Uncaught

  // What one `docker ps` came to: its program could not be started, it exited with an error, or
  // it printed these lines.
  datatype Output = Unlaunched | Exited | Printed(lines: seq<string>)

  function Refs(parse: string -> Parsed, lines: seq<string>): set<ContainerRef> {
    set line | line in lines && parse(line).Container? :: parse(line).ref
  }

  predicate Readable(parse: string -> Parsed, lines: seq<string>) {
    forall line :: line in lines ==> parse(line).Blank? || parse(line).Container?
  }

  // The first unreadable line is unusable: a missing key raises `KeyError`, and JSON that is no
  // object, or an id or name that cannot be hashed, raises `TypeError`.
  ghost predicate FatalAt(parse: string -> Parsed, lines: seq<string>, i: nat)
    requires i < |lines|
  {
    Readable(parse, lines[..i]) && parse(lines[i]).Unusable?
  }

  // An outcome whose error the loop does not catch; a program that cannot be started raises `OSError`.
  ghost predicate Fatal(parse: string -> Parsed, output: Output) {
    output.Unlaunched? || (output.Printed? && exists i: nat :: i < |output.lines| && FatalAt(parse, output.lines, i))
  }

  predicate Succeeds(parse: string -> Parsed, output: Output) {
    output.Printed? && Readable(parse, output.lines)
  }

  lemma FatalDoesNotSucceed(parse: string -> Parsed, output: Output)
    ensures Fatal(parse, output) ==> !Succeeds(parse, output)
  {
    if Fatal(parse, output) && output.Printed? {
      var i: nat :| i < |output.lines| && FatalAt(parse, output.lines, i);
      assert output.lines[i] in output.lines;
    }
  }

  // `_list_containers`: the first unreadable line decides the error.
  method ListContainers(parse: string -> Parsed, output: Output)
    returns (listing: Result<set<ContainerRef>, ListingError>)
    ensures listing.Success? <==> output.Printed? && Readable(parse, output.lines)
    ensures listing.Success? ==> listing.value == Refs(parse, output.lines)
    ensures listing == Failure(Uncaught) <==> Fatal(parse, output)
  {
    if output.Unlaunched? {
      return Failure(Uncaught);
    }
    if output.Exited? {
      return Failure(Caught);
    }
    var lines := output.lines;
    var refs := {};
    for i := 0 to |lines|
      invariant Readable(parse, lines[..i]) && refs == Refs(parse, lines[..i])
    {
      assert lines[..i + 1] == lines[..i] + [lines[i]];
      match parse(lines[i]) {
        case Blank =>
        case Container(ref) => refs := refs + {ref};
        case NotJson =>
          assert forall j :: i < j <= |lines| ==> lines[i] in lines[..j];
          return Failure(Caught);
        case Unusable =>
          assert FatalAt(parse, lines, i);
          return Failure(Uncaught);
      }
    }
    assert lines[..|lines|] == lines;
    listing := Success(refs);
  }

  // An iteration order of a set of refs.
  method Enumerate(refs: set<ContainerRef>) returns (order: seq<ContainerRef>)
    ensures forall ref :: ref in order <==> ref in refs
    ensures |order| == |refs|
  {
    var rest := refs;
    order := [];
    while rest != {}
      invariant rest <= refs && |order| + |rest| == |refs|
      invariant forall ref :: ref in order <==> ref in refs - rest
      decreases rest
    {
      var ref :| ref in rest;
      order, rest := order + [ref], rest - {ref};
    }
  }

  // The state after these listings, oldest first.
  function ListedAll(view: DaemonView, listings: seq<seq<ContainerRef>>): DaemonView {
    if listings == [] then view
    else Listed(ListedAll(view, listings[..|listings| - 1]), listings[|listings| - 1])
  }

  // Some iteration order of the containers a successful cycle printed.
  ghost predicate Orders(parse: string -> Parsed, output: Output, listing: seq<ContainerRef>) {
    output.Printed? && forall ref :: ref in listing <==> ref in Refs(parse, output.lines)
  }

  // Listing the container sets the successful cycles printed, and nothing else.
  ghost predicate Reflects(parse: string -> Parsed, outputs: seq<Output>, listings: seq<seq<ContainerRef>>) {
    if outputs == [] then listings == []
    else
      var init, last := outputs[..|outputs| - 1], outputs[|outputs| - 1];
      if Succeeds(parse, last)
      then && listings != []
           && Orders(parse, last, listings[|listings| - 1])
           && Reflects(parse, init, listings[..|listings| - 1])
      else Reflects(parse, init, listings)
  }

  /** The loop is meant never to crash. A single line without usable keys, or a program that
      cannot be started, is an outcome it does not survive. */
  lemma FatalOutcomes(parse: string -> Parsed, line: string)
    ensures Fatal(parse, Unlaunched)
    ensures Fatal(parse, Printed([line])) <==> parse(line).Unusable?
  {
    assert [line][..0] == [];
    if parse(line).Unusable? {
      assert FatalAt(parse, [line], 0);
    }
  }

  // One cycle for a daemon the registry knows: what it hands on, or a fatal error.
  method RunCycle(registry: Registry, dockerHost: string, parse: string -> Parsed, output: Output)
    returns (fatal: bool, listed: Option<seq<ContainerRef>>)
    requires registry.Valid() && dockerHost in registry.daemons
    modifies registry, registry.daemons.Values
    ensures registry.Valid() && registry.daemons == old(registry.daemons)
    ensures fatal <==> Fatal(parse, output)
    ensures listed.Some? <==> Succeeds(parse, output)
    ensures listed.Some? ==> Orders(parse, output, listed.value)
    ensures registry.ViewOf(dockerHost)
            == if listed.Some? then Listed(old(registry.ViewOf(dockerHost)), listed.value)
              else old(registry.ViewOf(dockerHost))
    ensures forall host :: host != dockerHost ==> registry.ViewOf(host) == old(registry.ViewOf(host))
  {
    var listing := ListContainers(parse, output);
    fatal, listed := listing == Failure(Uncaught), None;
    if listing.Success? {
      var order := Enumerate(listing.value);
      var newRefs := registry.Update(dockerHost, order);
      listed := Some(order);
    }
  }

  // What a loop has handed on after one more cycle.
  function WithListed(listings: seq<seq<ContainerRef>>, listed: Option<seq<ContainerRef>>): seq<seq<ContainerRef>> {
    if listed.Some? then listings + [listed.value] else listings
  }

  lemma OneMoreCycle(parse: string -> Parsed, outputs: seq<Output>, n: nat, view: DaemonView,
                     listings: seq<seq<ContainerRef>>, listed: Option<seq<ContainerRef>>)
    requires n < |outputs| && Reflects(parse, outputs[..n], listings)
    requires listed.Some? <==> Succeeds(parse, outputs[n])
    requires listed.Some? ==> Orders(parse, outputs[n], listed.value)
    ensures Reflects(parse, outputs[..n + 1], WithListed(listings, listed))
    ensures ListedAll(view, WithListed(listings, listed))
            == if listed.Some? then Listed(ListedAll(view, listings), listed.value) else ListedAll(view, listings)
  {
    assert outputs[..n + 1][..n] == outputs[..n];
    if listed.Some? {
      assert (listings + [listed.value])[..|listings|] == listings;
    }
  }

  // The loop, for a daemon the registry knows.
  method ListCycles(registry: Registry, dockerHost: string, parse: string -> Parsed, outputs: seq<Output>)
    returns (listings: seq<seq<ContainerRef>>, cycles: nat)
    requires registry.Valid() && dockerHost in registry.daemons
    modifies registry, registry.daemons.Values
    ensures registry.Valid() && cycles <= |outputs|
    ensures Reflects(parse, outputs[..cycles], listings)
    ensures registry.ViewOf(dockerHost) == ListedAll(old(registry.ViewOf(dockerHost)), listings)
    ensures forall host :: host != dockerHost ==> registry.ViewOf(host) == old(registry.ViewOf(host))
    ensures cycles == |outputs| <==> forall output :: output in outputs ==> !Fatal(parse, output)
    ensures cycles < |outputs| ==>
              Fatal(parse, outputs[cycles]) && forall k :: 0 <= k < cycles ==> !Fatal(parse, outputs[k])
  {
    listings, cycles := [], 0;
    while cycles < |outputs|
      invariant registry.Valid() && cycles <= |outputs| && registry.daemons == old(registry.daemons)
      invariant Reflects(parse, outputs[..cycles], listings)
      invariant registry.ViewOf(dockerHost) == ListedAll(old(registry.ViewOf(dockerHost)), listings)
      invariant forall host :: host != dockerHost ==> registry.ViewOf(host) == old(registry.ViewOf(host))
      invariant forall k :: 0 <= k < cycles ==> !Fatal(parse, outputs[k])
    {
      var fatal, listed := RunCycle(registry, dockerHost, parse, outputs[cycles]);
      if fatal {
        return;
      }
      OneMoreCycle(parse, outputs, cycles, old(registry.ViewOf(dockerHost)), listings, listed);
      listings := WithListed(listings, listed);
      cycles := cycles + 1;
    }
  }

  // `run_containers_listing` over any finite number of cycles, `cycles` of which it completes:
  // failed ones leave the registry alone, and it ends at the first fatal one. `listings` is what
  // was handed on.
  method RunContainersListing(registry: Registry, dockerHost: string, parse: string -> Parsed, outputs: seq<Output>)
    returns (listings: seq<seq<ContainerRef>>, cycles: nat)
    requires registry.Valid()
    modifies registry, registry.daemons.Values
    ensures registry.Valid() && cycles <= |outputs|
    ensures Reflects(parse, outputs[..cycles], listings)
    ensures registry.ViewOf(dockerHost) == ListedAll(old(registry.ViewOf(dockerHost)), listings)
    ensures forall host :: host != dockerHost ==> registry.ViewOf(host) == old(registry.ViewOf(host))
    ensures cycles == |outputs| <==> forall output :: output in outputs ==> !Fatal(parse, output)
    ensures cycles < |outputs| ==>
              Fatal(parse, outputs[cycles]) && forall k :: 0 <= k < cycles ==> !Fatal(parse, outputs[k])
  {
    var state := registry.StateFor(dockerHost);
    listings, cycles := ListCycles(registry, dockerHost, parse, outputs);
  }
}
