/** What the history of a daemon's run says: announcements, spawns, stops and forgets are
    balanced, miss counts are the number of listings missed, and nothing is stopped early. */
module LifecycleHistory {
  import opened Registry
  import opened Lifecycle
  import opened LifecycleSafety

  // The successful listings of a run, oldest first.
  function Listings(log: seq<Event>): seq<set<string>> {
    if log == [] then []
    else
      var init, last := log[..|log| - 1], log[|log| - 1];
      if last.Listing? then Listings(init) + [last.ids] else Listings(init)
  }

  // The number of successful listings since the most recent one that contained `id`.
  function MissedListings(log: seq<Event>, id: string): nat {
    if log == [] then 0
    else
      var init, last := log[..|log| - 1], log[|log| - 1];
      if !last.Listing? then MissedListings(init, id)
      else if id in last.ids then 0
      else MissedListings(init, id) + 1
  }

  ghost predicate AbsentFromLast(listings: seq<set<string>>, id: string, n: nat) {
    n <= |listings| && forall i :: |listings| - n <= i < |listings| ==> id !in listings[i]
  }

  lemma {:induction false} MissedListingsMeaning(log: seq<Event>, id: string)
    ensures var n := MissedListings(log, id);
            && AbsentFromLast(Listings(log), id, n)
            && (n < |Listings(log)| ==> id in Listings(log)[|Listings(log)| - 1 - n])
  {
    if log != [] {
      MissedListingsMeaning(log[..|log| - 1], id);
    }
  }

  function Count(log: seq<Event>, event: Event): nat {
    if log == [] then 0
    else Count(log[..|log| - 1], event) + if log[|log| - 1] == event then 1 else 0
  }

  // Neither early return of `spawn` and no "not in the registry" verdict.
  ghost predicate NothingSkipped(log: seq<Event>) {
    forall i :: 0 <= i < |log| ==> !log[i].SkipSpawn? && (log[i].Select? ==> log[i].known)
  }

  // Every selection was made on a miss count that had reached the threshold.
  ghost predicate StopsJustified(log: seq<Event>, threshold: int) {
    forall i :: 0 <= i < |log| && log[i].Select? ==> MissedListings(log[..i], log[i].id) >= threshold
  }

  // The account of one container id: announced once more than forgotten while it is registered,
  // once more than spawned while it is queued, and its miss count is the listings it missed.
  // The listings are counted in `listingSeq`, and whoever is registered was in one of them.
  ghost predicate Balanced(d: Daemon, id: string) {
    && Count(d.log, Announce(id)) == Count(d.log, Forget(id)) + (if id in d.view.containers then 1 else 0)
    && Count(d.log, Announce(id)) == Count(d.log, Create(id)) + (if id in Ids(Pending(d)) then 1 else 0)
    && d.view.listingSeq == |Listings(d.log)|
    && (id in d.view.containers ==>
          && d.view.containers[id].lastSeenSeq >= 1
          && d.view.listingSeq == d.view.containers[id].lastSeenSeq + MissedListings(d.log, id))
  }

  ghost predicate Justified(d: Daemon, threshold: int) {
    NothingSkipped(d.log) && StopsJustified(d.log, threshold)
  }

  // One more event that is not a listing.
  lemma OneMore(log: seq<Event>, event: Event, id: string)
    requires !event.Listing?
    ensures Count(log + [event], Announce(id)) == Count(log, Announce(id)) + if event == Announce(id) then 1 else 0
    ensures Count(log + [event], Forget(id)) == Count(log, Forget(id)) + if event == Forget(id) then 1 else 0
    ensures Count(log + [event], Create(id)) == Count(log, Create(id)) + if event == Create(id) then 1 else 0
    ensures MissedListings(log + [event], id) == MissedListings(log, id)
    ensures Listings(log + [event]) == Listings(log)
  {
  }

  lemma {:induction false} AnnouncementsCount(log: seq<Event>, refs: seq<ContainerRef>, id: string)
    requires DistinctIds(refs)
    ensures Count(log + Announcements(refs), Announce(id))
            == Count(log, Announce(id)) + if id in Ids(refs) then 1 else 0
    ensures Count(log + Announcements(refs), Forget(id)) == Count(log, Forget(id))
    ensures Count(log + Announcements(refs), Create(id)) == Count(log, Create(id))
    ensures MissedListings(log + Announcements(refs), id) == MissedListings(log, id)
    ensures Listings(log + Announcements(refs)) == Listings(log)
  {
    if refs == [] {
      assert log + Announcements(refs) == log;
    } else {
      var init, ref := refs[..|refs| - 1], refs[|refs| - 1];
      AnnouncementsCount(log, init, id);
      assert Ids(refs) == Ids(init) + {ref.containerId} && ref.containerId !in Ids(init) by {
        IdsOfLast(refs);
        assert forall r :: r in init ==> r.containerId != ref.containerId;
      }
      OneMore(log + Announcements(init), Announce(ref.containerId), id);
      assert log + Announcements(refs) == (log + Announcements(init)) + [Announce(ref.containerId)];
    }
  }

  lemma ListingLogged(log: seq<Event>, listing: seq<ContainerRef>, refs: seq<ContainerRef>, id: string)
    requires DistinctIds(refs)
    ensures var after := log + [Listing(Ids(listing))] + Announcements(refs);
            && Count(after, Announce(id)) == Count(log, Announce(id)) + (if id in Ids(refs) then 1 else 0)
            && Count(after, Forget(id)) == Count(log, Forget(id))
            && Count(after, Create(id)) == Count(log, Create(id))
            && Listings(after) == Listings(log) + [Ids(listing)]
            && MissedListings(after, id) == if id in Ids(listing) then 0 else MissedListings(log, id) + 1
  {
    var heard := log + [Listing(Ids(listing))];
    assert heard[..|heard| - 1] == log;
    AnnouncementsCount(heard, refs, id);
  }

  // What one listing does to one id: in the registry, in the queue and in the history.
  lemma ListingOnId(d: Daemon, listing: seq<ContainerRef>, id: string)
    requires d.updater.Resting?
    ensures var e := OnListing(d, listing);
            && (id in e.view.containers <==> id in d.view.containers || id in Ids(listing))
            && (id in Ids(listing) ==> e.view.containers[id].lastSeenSeq == e.view.listingSeq)
            && (id in d.view.containers && id !in Ids(listing) ==> e.view.containers[id] == d.view.containers[id])
            && (id in Ids(Pending(e)) <==> id in Ids(listing) && id !in d.view.containers)
  {
    RecordedMeaning(d.view.containers, listing, d.view.listingSeq + 1);
    NewRefsMeaning(d.view.containers, listing);
    assert Pending(OnListing(d, listing)) == NewRefs(d.view.containers, listing);
  }

  lemma ListingKeepsBalanced(d: Daemon, listing: seq<ContainerRef>, id: string)
    requires Balanced(d, id) && d.updater.Resting?
    ensures Balanced(OnListing(d, listing), id)
  {
    var refs := NewRefs(d.view.containers, listing);
    assert DistinctIds(refs) && (id in Ids(refs) <==> id in Ids(listing) && id !in d.view.containers) by {
      NewRefsMeaning(d.view.containers, listing);
    }
    ListingLogged(d.log, listing, refs, id);
    ListingOnId(d, listing, id);
  }

  // The spawner's steps: only the re-check logs anything, and it always creates.
  lemma SpawnStep(d: Daemon, threshold: int, a: Act)
    requires Coherent(d) && CanStep(d, a)
    requires a.SpawnChecks? || a.SpawnAcquires? || a.SpawnRechecks? || a.SpawnReleases?
    ensures var e := DaemonStep(d, threshold, a);
            && e.view == d.view
            && if a.SpawnRechecks?
               then Pending(d) != [] && Pending(e) == Pending(d)[1..]
                    && e.log == d.log + [Create(Pending(d)[0].containerId)]
               else Pending(e) == Pending(d) && e.log == d.log
  {
    if a.SpawnRechecks? {
      CreationKeepsCoherent(d);
      assert Pending(d)[1..] == d.updater.queue;
    } else {
      SpawnKeepsCoherent(d, a);
    }
  }

  // The tracker's steps, failed listings and task steps: what they log and what they change.
  lemma OtherStep(d: Daemon, threshold: int, a: Act)
    requires Coherent(d) && CanStep(d, a)
    requires !(a.ListingSucceeds? || a.SpawnChecks? || a.SpawnAcquires? || a.SpawnRechecks? || a.SpawnReleases?)
    ensures var e := DaemonStep(d, threshold, a);
            && Pending(e) == Pending(d)
            && (e.log == d.log ==> e.view == d.view)
            && (e.log != d.log ==>
                  var event := e.log[|e.log| - 1];
                  && e.log == d.log + [event]
                  && !event.Announce? && !event.Create? && !event.Listing?
                  && (event.Forget? ==> event.id in d.view.containers)
                  && e.view == if event.Forget? then Forgotten(d.view, event.id) else d.view)
  {
    var e := DaemonStep(d, threshold, a);
    if e.log != d.log {
      assert e.log == d.log + [e.log[|e.log| - 1]];
      assert e.log[|e.log| - 1].Forget? ==> d.tracker.id == Handled(d)[0];
    }
  }

  // One more event, none of them a listing or an announcement, keeps the account.
  lemma EventKeepsBalanced(d: Daemon, e: Daemon, event: Event, id: string)
    requires Balanced(d, id) && e.log == d.log + [event] && !event.Listing? && !event.Announce?
    requires event.Forget? ==> event.id in d.view.containers
    requires e.view == if event.Forget? then Forgotten(d.view, event.id) else d.view
    requires event.Create? ==> Pending(d) != [] && Pending(d)[0].containerId == event.id && DistinctIds(Pending(d))
    requires Pending(e) == if event.Create? then Pending(d)[1..] else Pending(d)
    ensures Balanced(e, id)
  {
  }

  lemma StepKeepsBalanced(d: Daemon, threshold: int, a: Act, id: string)
    requires Coherent(d) && Balanced(d, id) && CanStep(d, a)
    ensures Balanced(DaemonStep(d, threshold, a), id)
  {
    if a.ListingSucceeds? {
      ListingKeepsBalanced(d, a.listing, id);
    } else {
      var e := DaemonStep(d, threshold, a);
      if a.SpawnChecks? || a.SpawnAcquires? || a.SpawnRechecks? || a.SpawnReleases? {
        SpawnStep(d, threshold, a);
      } else {
        OtherStep(d, threshold, a);
      }
      if e.log != d.log {
        EventKeepsBalanced(d, e, e.log[|e.log| - 1], id);
      }
    }
  }

  // A log that only grows by one event stays justified if that event is.
  lemma GrowingLog(log: seq<Event>, event: Event, threshold: int)
    requires NothingSkipped(log) && StopsJustified(log, threshold)
    requires !event.SkipSpawn? && (event.Select? ==> event.known && MissedListings(log, event.id) >= threshold)
    ensures NothingSkipped(log + [event]) && StopsJustified(log + [event], threshold)
  {
    var more := log + [event];
    forall i | 0 <= i < |more| && more[i].Select?
      ensures MissedListings(more[..i], more[i].id) >= threshold
    {
      assert more[..i] == if i == |log| then log else log[..i];
    }
  }

  lemma {:induction false} GrowingByAnnouncements(log: seq<Event>, refs: seq<ContainerRef>, threshold: int)
    requires NothingSkipped(log) && StopsJustified(log, threshold)
    ensures NothingSkipped(log + Announcements(refs)) && StopsJustified(log + Announcements(refs), threshold)
  {
    if refs == [] {
      assert log + Announcements(refs) == log;
    } else {
      var init, ref := refs[..|refs| - 1], refs[|refs| - 1];
      GrowingByAnnouncements(log, init, threshold);
      GrowingLog(log + Announcements(init), Announce(ref.containerId), threshold);
      assert log + Announcements(refs) == (log + Announcements(init)) + [Announce(ref.containerId)];
    }
  }

  lemma StepKeepsJustified(d: Daemon, threshold: int, a: Act)
    requires Coherent(d) && Justified(d, threshold) && CanStep(d, a)
    requires forall id :: id in d.view.containers ==> Balanced(d, id)
    ensures Justified(DaemonStep(d, threshold, a), threshold)
  {
    var e := DaemonStep(d, threshold, a);
    if a.ListingSucceeds? {
      GrowingLog(d.log, Listing(Ids(a.listing)), threshold);
      GrowingByAnnouncements(d.log + [Listing(Ids(a.listing))], NewRefs(d.view.containers, a.listing), threshold);
    } else if e.log != d.log {
      StepLogsJustified(d, threshold, a);
      GrowingLog(d.log, e.log[|e.log| - 1], threshold);
    }
  }

  // What any other step logs: no skipped spawn, and no verdict on an unknown or recently seen id.
  lemma StepLogsJustified(d: Daemon, threshold: int, a: Act)
    requires Coherent(d) && CanStep(d, a) && !a.ListingSucceeds? && DaemonStep(d, threshold, a).log != d.log
    requires forall id :: id in d.view.containers ==> Balanced(d, id)
    ensures var log := DaemonStep(d, threshold, a).log;
            log != [] && var event := log[|log| - 1];
            && log == d.log + [event] && !event.SkipSpawn?
            && (event.Select? ==> event.known && MissedListings(d.log, event.id) >= threshold)
  {
    if a.SpawnChecks? {
      SpawnKeepsCoherent(d, a);
    } else if a.SpawnRechecks? {
      CreationKeepsCoherent(d);
    } else if a.PassChecks? {
      PassCheckKeepsCoherent(d, threshold);
    }
  }
}
