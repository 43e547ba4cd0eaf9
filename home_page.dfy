/**
 * The client state controller of the home page (apps/web/src/app/page.tsx).
 *
 * The page holds the list of entries shown, the local-storage slot
 * 'timeline-entries' and three flags. Each handler calls the server once; the
 * result of that call is a parameter (`Reply`), so every path can be chosen.
 * An answer whose status is not 2xx and a call that throws (no network,
 * unreadable body) both take the fallback path.
 */
module HomePage {
  import opened Wrappers
  import opened Entries
  import opened EntryOrder

  /** The outcome of one `fetch` as the page sees it. */
  datatype Reply<T> = Ok(payload: T) | NotOk | Throws

  /** The displayed list, and the cached one when present, are newest first. */
  predicate SortedState(entries: seq<Entry>, cache: Option<seq<Entry>>)
  {
    Sorted(entries) && (cache.Some? ==> Sorted(cache.value))
  }

  class Home {
    var entries: seq<Entry>
    /** The 'timeline-entries' slot of local storage (None: no item stored). */
    var cache: Option<seq<Entry>>
    var isLoaded: bool
    var isLoading: bool
    var isModalOpen: bool

    /** The page as first rendered, on a device whose storage holds `stored`. */
    constructor (stored: Option<seq<Entry>>)
      ensures entries == [] && cache == stored
      ensures !isLoaded && !isLoading && !isModalOpen
    {
      entries := [];
      cache := stored;
      isLoaded := false;
      isLoading := false;
      isModalOpen := false;
    }

    /** `fetchEntries`: the server's list, or else the cached one. */
    method FetchEntries(reply: Reply<seq<Entry>>)
      modifies this
      ensures reply.Ok? ==> entries == reply.payload
      ensures !reply.Ok? ==> entries == if old(cache).Some? then old(cache).value else old(entries)
      ensures cache == old(cache)
      ensures isLoaded
      ensures isLoading == old(isLoading) && isModalOpen == old(isModalOpen)
      ensures SortedState(old(entries), old(cache)) && (reply.Ok? ==> Sorted(reply.payload)) ==> SortedState(entries, cache)
    {
      match reply {
        case Ok(data) =>
          entries := data;
        case NotOk =>
          if cache.Some? {
            entries := cache.value;
          }
        case Throws =>
          if cache.Some? {
            entries := cache.value;
          }
      }
      isLoaded := true;
    }

    /**
     * `addEntry`: on success the server's record, otherwise a record built
     * on the client from `candidate`, `clientId` and `clientNow`, is added and
     * the list re-sorted; the fallback paths also overwrite the cache.
     */
    method AddEntry(candidate: Candidate, reply: Reply<Entry>, clientId: string, clientNow: Date)
      modifies this
      ensures var added := if reply.Ok? then reply.payload else Synthesize(candidate, clientId, clientNow);
        entries == SortByDateDesc([added] + old(entries))
      ensures reply.Ok? ==> cache == old(cache)
      ensures !reply.Ok? ==> cache == Some(entries)
      ensures Sorted(entries)
      ensures !isLoading && !isModalOpen && isLoaded == old(isLoaded)
      ensures SortedState(old(entries), old(cache)) ==> SortedState(entries, cache)
    {
      isLoading := true;
      ghost var added := if reply.Ok? then reply.payload else Synthesize(candidate, clientId, clientNow);
      if reply.Ok? {
        entries := SortByDateDesc([reply.payload] + entries);
      } else {
        // a non-2xx answer and a thrown error take the same fallback path
        var entry := Synthesize(candidate, clientId, clientNow);
        var updated := SortByDateDesc([entry] + entries);
        cache := Some(updated);
        entries := updated;
      }
      assert entries == SortByDateDesc([added] + old(entries));
      isModalOpen := false;
      isLoading := false;
    }

    /** `deleteEntry`: the entry leaves the list whatever the server says;
        only the fallback paths write the cache. */
    method DeleteEntry(id: string, reply: Reply<()>)
      modifies this
      ensures entries == Without(old(entries), id)
      ensures reply.Ok? ==> cache == old(cache)
      ensures !reply.Ok? ==> cache == Some(entries)
      ensures isLoaded == old(isLoaded) && isLoading == old(isLoading) && isModalOpen == old(isModalOpen)
      ensures SortedState(old(entries), old(cache)) ==> SortedState(entries, cache)
    {
      if Sorted(entries) {
        DeleteKeepsSorted(entries, id);
      }
      if reply.Ok? {
        entries := Without(entries, id);
      } else {
        var updated := Without(entries, id);
        cache := Some(updated);
        entries := updated;
      }
    }

    /** The "Add Photo" and "Add Your First Entry" buttons. */
    method OpenModal()
      modifies this
      ensures isModalOpen
      ensures entries == old(entries) && cache == old(cache)
      ensures isLoaded == old(isLoaded) && isLoading == old(isLoading)
    {
      isModalOpen := true;
    }

    /** The modal's `onClose`. */
    method CloseModal()
      modifies this
      ensures !isModalOpen
      ensures entries == old(entries) && cache == old(cache)
      ensures isLoaded == old(isLoaded) && isLoading == old(isLoading)
    {
      isModalOpen := false;
    }
  }

  /**
   * An entry added while the server is down is written to the cache, and a
   * later session that cannot reach the server either shows exactly the list
   * the first session ended with, the new entry included.
   */
  method FallbackSurvivesReload(stored: Option<seq<Entry>>, candidate: Candidate, clientId: string, clientNow: Date)
    returns (shown: seq<Entry>, reloaded: seq<Entry>)
    ensures shown == reloaded
    ensures Synthesize(candidate, clientId, clientNow) in reloaded
  {
    var page := new Home(stored);
    page.FetchEntries(Throws);
    ghost var before := page.entries;
    page.AddEntry(candidate, NotOk, clientId, clientNow);
    shown := page.entries;
    ghost var added := Synthesize(candidate, clientId, clientNow);
    assert added in multiset([added] + before);
    assert added in multiset(shown);
    var next := new Home(page.cache);
    next.FetchEntries(NotOk);
    reloaded := next.entries;
  }
}
