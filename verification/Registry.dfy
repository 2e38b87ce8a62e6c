/** The central registry (registry.py): per daemon, the number of successful `docker ps`
    listings and, per container, the last listing that contained it. */
module Registry {

  datatype ContainerRef = ContainerRef(containerId: string, containerName: string)

  datatype ContainerState = ContainerState(ref: ContainerRef, lastSeenSeq: nat)

  // The value of a `DaemonState` object at one moment.
  datatype DaemonView = DaemonView(listingSeq: nat, containers: map<string, ContainerState>)

  const NEW_DAEMON := DaemonView(0, map[])

  function Ids(listing: seq<ContainerRef>): set<string> {
    set ref | ref in listing :: ref.containerId
  }

  ghost predicate DistinctIds(refs: seq<ContainerRef>) {
    forall i, j :: 0 <= i < j < |refs| ==> refs[i].containerId != refs[j].containerId
  }

  // `containers` after the bookkeeping loop has seen `listing` in this order.
  function Recorded(containers: map<string, ContainerState>, listing: seq<ContainerRef>, listingSeq: nat)
    : map<string, ContainerState>
  {
    if listing == [] then containers
    else
      var ref := listing[|listing| - 1];
      Recorded(containers, listing[..|listing| - 1], listingSeq)[ref.containerId := ContainerState(ref, listingSeq)]
  }

  // The refs to announce: the first one in `listing` of every id that is not registered yet.
  function NewRefs(containers: map<string, ContainerState>, listing: seq<ContainerRef>): seq<ContainerRef> {
    if listing == [] then []
    else
      var init, ref := listing[..|listing| - 1], listing[|listing| - 1];
      if ref.containerId in containers || ref.containerId in Ids(init) then NewRefs(containers, init)
      else NewRefs(containers, init) + [ref]
  }

  // One successful listing, and one `forget`, on the value of a daemon's state.
  function Listed(view: DaemonView, listing: seq<ContainerRef>): DaemonView {
    DaemonView(view.listingSeq + 1, Recorded(view.containers, listing, view.listingSeq + 1))
  }

  function Forgotten(view: DaemonView, containerId: string): DaemonView {
    view.(containers := view.containers - {containerId})
  }

  /** A listing stamps exactly its own containers and keeps every other entry as it was. */
  lemma {:induction false} RecordedMeaning(containers: map<string, ContainerState>, listing: seq<ContainerRef>, n: nat)
    ensures var after := Recorded(containers, listing, n);
            && after.Keys == containers.Keys + Ids(listing)
            && (forall id :: id in Ids(listing) ==>
                  after[id].lastSeenSeq == n && after[id].ref in listing && after[id].ref.containerId == id)
            && (forall id :: id in containers && id !in Ids(listing) ==> after[id] == containers[id])
  {
    if listing != [] {
      RecordedMeaning(containers, listing[..|listing| - 1], n);
      IdsOfLast(listing);
    }
  }

  /** A listing announces exactly its unregistered ids, each of them once. */
  lemma {:induction false} NewRefsMeaning(containers: map<string, ContainerState>, listing: seq<ContainerRef>)
    ensures var refs := NewRefs(containers, listing);
            && DistinctIds(refs)
            && Ids(refs) == Ids(listing) - containers.Keys
            && (forall ref :: ref in refs ==> ref in listing)
  {
    if listing != [] {
      var init, ref := listing[..|listing| - 1], listing[|listing| - 1];
      NewRefsMeaning(containers, init);
      IdsOfLast(listing);
      if ref.containerId !in containers && ref.containerId !in Ids(init) {
        OneMoreRef(NewRefs(containers, init), ref);
      }
    }
  }

  lemma OneMoreRef(refs: seq<ContainerRef>, ref: ContainerRef)
    requires DistinctIds(refs) && ref.containerId !in Ids(refs)
    ensures DistinctIds(refs + [ref]) && Ids(refs + [ref]) == Ids(refs) + {ref.containerId}
  {
  }

  lemma IdsOfLast(listing: seq<ContainerRef>)
    requires listing != []
    ensures Ids(listing) == Ids(listing[..|listing| - 1]) + {listing[|listing| - 1].containerId}
  {
  }

  class DaemonState {
    var listingSeq: nat
    var containers: map<string, ContainerState>

    constructor ()
      ensures View() == NEW_DAEMON
    {
      listingSeq, containers := 0, map[];
    }

    function View(): DaemonView
      reads this
    {
      DaemonView(listingSeq, containers)
    }

    // The bookkeeping of `update`: it runs without an interleaving point, and returns the refs
    // to hand one by one to the registered callback.
    method Record(listing: seq<ContainerRef>) returns (newRefs: seq<ContainerRef>)
      modifies this
      ensures View() == Listed(old(View()), listing)
      ensures newRefs == NewRefs(old(containers), listing)
    {
      listingSeq := listingSeq + 1;
      newRefs := [];
      for i := 0 to |listing|
        invariant listingSeq == old(listingSeq) + 1
        invariant containers == Recorded(old(containers), listing[..i], listingSeq)
        invariant newRefs == NewRefs(old(containers), listing[..i])
      {
        var ref := listing[i];
        assert listing[..i + 1][..i] == listing[..i];
        RecordedMeaning(old(containers), listing[..i], listingSeq);
        var existing := ref.containerId in containers;
        containers := containers[ref.containerId := ContainerState(ref, listingSeq)];
        if !existing {
          newRefs := newRefs + [ref];
        }
      }
      assert listing[..|listing|] == listing;
    }
  }

  class Registry {
    var daemons: map<string, DaemonState>

    // No two daemons share a state object.
    ghost predicate Valid()
      reads this
    {
      forall h, g :: h in daemons && g in daemons && daemons[h] == daemons[g] ==> h == g
    }

    // The value of the state `state_for` answers with: a fresh one for a host it has not met.
    function ViewOf(dockerHost: string): DaemonView
      reads this, daemons.Values
    {
      if dockerHost in daemons then daemons[dockerHost].View() else NEW_DAEMON
    }

    constructor ()
      ensures Valid() && daemons == map[]
    {
      daemons := map[];
    }

    method StateFor(dockerHost: string) returns (state: DaemonState)
      requires Valid()
      modifies this
      ensures Valid() && dockerHost in daemons && state == daemons[dockerHost]
      ensures forall host :: host in old(daemons) ==> host in daemons && daemons[host] == old(daemons)[host]
      ensures daemons.Keys == old(daemons).Keys + {dockerHost}
      ensures if dockerHost in old(daemons) then daemons == old(daemons) else fresh(state)
      ensures forall host :: ViewOf(host) == old(ViewOf(host))
    {
      if dockerHost in daemons {
        state := daemons[dockerHost];
      } else {
        state := new DaemonState();
        daemons := daemons[dockerHost := state];
      }
    }

    // `update` up to its callbacks.
    method Update(dockerHost: string, listing: seq<ContainerRef>) returns (newRefs: seq<ContainerRef>)
      requires Valid()
      modifies this, daemons.Values
      ensures Valid() && daemons.Keys == old(daemons).Keys + {dockerHost}
      ensures dockerHost in old(daemons) ==> daemons == old(daemons)
      ensures ViewOf(dockerHost) == Listed(old(ViewOf(dockerHost)), listing)
      ensures newRefs == NewRefs(old(ViewOf(dockerHost)).containers, listing)
      ensures forall host :: host != dockerHost ==> ViewOf(host) == old(ViewOf(host))
    {
      var state := StateFor(dockerHost);
      newRefs := state.Record(listing);
    }

    method Forget(dockerHost: string, containerId: string)
      requires Valid()
      modifies daemons.Values
      ensures Valid()
      ensures ViewOf(dockerHost) == Forgotten(old(ViewOf(dockerHost)), containerId)
      ensures forall host :: host != dockerHost ==> ViewOf(host) == old(ViewOf(host))
    {
      if dockerHost in daemons {
        var state := daemons[dockerHost];
        state.containers := state.containers - {containerId};
      }
    }
  }
}
