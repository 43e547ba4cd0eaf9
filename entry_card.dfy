/**
 * One card of the timeline (apps/web/src/components/TimelineEntryCard.tsx).
 *
 * Deleting takes two clicks: the first arms a confirmation flag and schedules
 * a callback that disarms it three seconds later; a click while armed calls
 * `onDelete`. The host's timer is explicit here: `pendingTimers` counts the
 * scheduled callbacks that have not run, and `TimerFires` runs one of them.
 * `deleteRequests` counts the calls to `onDelete`.
 */
module EntryCard {
  import opened Wrappers
  import opened Entries

  /** `entry.link && <a …>Visit</a>`: the Visit link is rendered for a present, non-empty link. */
  function ShowsVisitLink(e: Entry): (r: bool)
    ensures r <==> e.link.Some? && |e.link.value| > 0
  {
    match e.link
    case None => false
    case Some(url) => url != ""
  }

  class TimelineEntryCard {
    const entry: Entry
    var showDeleteConfirm: bool
    var pendingTimers: nat
    var deleteRequests: nat

    constructor (entry: Entry)
      ensures this.entry == entry
      ensures !showDeleteConfirm && pendingTimers == 0 && deleteRequests == 0
    {
      this.entry := entry;
      showDeleteConfirm := false;
      pendingTimers := 0;
      deleteRequests := 0;
    }

    /** `handleDelete`: confirm when armed, otherwise arm and schedule the reset. */
    method HandleDelete()
      modifies this
      ensures old(showDeleteConfirm) ==>
        deleteRequests == old(deleteRequests) + 1 && showDeleteConfirm && pendingTimers == old(pendingTimers)
      ensures !old(showDeleteConfirm) ==>
        deleteRequests == old(deleteRequests) && showDeleteConfirm && pendingTimers == old(pendingTimers) + 1
    {
      if showDeleteConfirm {
        deleteRequests := deleteRequests + 1;
      } else {
        showDeleteConfirm := true;
        pendingTimers := pendingTimers + 1;
      }
    }

    /** A scheduled `() => setShowDeleteConfirm(false)` runs. */
    method TimerFires()
      requires pendingTimers > 0
      modifies this
      ensures !showDeleteConfirm
      ensures pendingTimers == old(pendingTimers) - 1 && deleteRequests == old(deleteRequests)
    {
      showDeleteConfirm := false;
      pendingTimers := pendingTimers - 1;
    }
  }

  /** Two clicks in a row on a fresh card ask for exactly one deletion. */
  method TwoClicksDeleteOnce(entry: Entry) returns (requests: nat, armed: bool)
    ensures requests == 1 && armed
  {
    var card := new TimelineEntryCard(entry);
    card.HandleDelete();
    card.HandleDelete();
    requests := card.deleteRequests;
    armed := card.showDeleteConfirm;
  }

  /** When the reset fires between the clicks, the second click only re-arms. */
  method TimeoutBetweenClicks(entry: Entry) returns (requests: nat, armed: bool)
    ensures requests == 0 && armed
  {
    var card := new TimelineEntryCard(entry);
    card.HandleDelete();
    card.TimerFires();
    card.HandleDelete();
    requests := card.deleteRequests;
    armed := card.showDeleteConfirm;
  }

  /** A click on an armed card adds one request each time: three clicks ask twice. */
  method ThreeClicksDeleteTwice(entry: Entry) returns (requests: nat)
    ensures requests == 2
  {
    var card := new TimelineEntryCard(entry);
    card.HandleDelete();
    card.HandleDelete();
    card.HandleDelete();
    requests := card.deleteRequests;
  }
}
