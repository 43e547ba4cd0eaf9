/**
 * How the pieces meet: the dialog's candidate travels as the POST body, the
 * route's responses become the page's replies, and the page's list is what
 * the timeline groups.
 *
 * `JSON.stringify` of a candidate keeps its strings, turns the date into its
 * ISO text (`iso`, never empty for a valid date) and drops an undefined link.
 */
module EndToEnd {
  import opened Wrappers
  import opened Entries
  import opened EntryOrder
  import opened EntriesRoute
  import opened AddEntryForm
  import opened HomePage
  import opened Timeline
  import opened EntryCard

  /** The request body `addEntry` sends for a candidate, as the route
      destructures it: the strings as they are, the date as its ISO text, and
      an undefined link left out (so read back as absent). */
  function WireBody(c: Candidate, iso: Date -> string): (b: PostBody)
    ensures HasRequiredFields(b) <==> c.photo != "" && c.description != "" && iso(c.date) != ""
    ensures b.link.None? <==> c.link.None?
    ensures b.date == Some(iso(c.date))
  {
    PostBody(Some(c.photo), Some(c.description), Some(iso(c.date)), c.link)
  }

  /** `response.ok` followed by `response.json()`, for a list answer: a 2xx
      answer carrying a list is `Ok` with that list, anything else `NotOk`. */
  function ListReply(r: Response): (reply: Reply<seq<Entry>>)
    ensures reply.Ok? <==> 200 <= r.status < 300 && r.body.EntryList?
    ensures reply.Ok? ==> reply.payload == r.body.entries
    ensures !reply.Throws?
  {
    if 200 <= r.status < 300 && r.body.EntryList? then Ok(r.body.entries) else NotOk
  }

  /** `response.ok` followed by `response.json()`, for a created record: a 2xx
      answer carrying a record is `Ok` with that record, anything else `NotOk`. */
  function RecordReply(r: Response): (reply: Reply<Entry>)
    ensures reply.Ok? <==> 200 <= r.status < 300 && r.body.Record?
    ensures reply.Ok? ==> reply.payload == r.body.entry
    ensures !reply.Throws?
  {
    if 200 <= r.status < 300 && r.body.Record? then Ok(r.body.entry) else NotOk
  }

  /** The page loads from the server exactly when GET answers 200, and then
      shows the listed entries; every 500 sends it to the cache. */
  lemma LoadFollowsGet(databaseUrl: Option<string>, probe: StoreCall<()>, rows: StoreCall<seq<Entry>>)
    ensures var r := Get(databaseUrl, probe, rows).response;
      && (ListReply(r).Ok? <==> r.status == 200)
      && (ListReply(r).Ok? ==> ListReply(r).payload == r.body.entries)
      && (ListReply(r).Ok? <==> Truthy(databaseUrl) && (probe.Raises? || rows.Returns?))
  {
  }

  /** The page keeps the server's record exactly when POST created one; every
      400 and 500 sends it down the fallback path. */
  lemma AddFollowsPost(body: Option<PostBody>, toDate: string -> Date, create: StoreCall<(string, Date)>)
    ensures var p := Post(body, toDate, create);
      && (RecordReply(p.response).Ok? <==> p.created.Some?)
      && (RecordReply(p.response).Ok? ==> RecordReply(p.response).payload == p.created.value)
  {
  }

  /**
   * Whatever the dialog lets through passes the route's validation, and the
   * stored record carries exactly the dialog's candidate: the server path and
   * the page's fallback path build the same entry up to `id` and `createdAt`.
   */
  lemma SubmittedCandidateIsStored(photo: string, description: string, date: Date, link: string,
                                   iso: Date -> string, toDate: string -> Date,
                                   id: string, createdAt: Date, clientId: string, clientNow: Date)
    requires CanSubmit(photo, description)
    requires iso(date) != "" && toDate(iso(date)) == date
    ensures var c := Payload(photo, description, date, link);
      var r := Post(Some(WireBody(c, iso)), toDate, Returns((id, createdAt)));
      && r.response.status == 201
      && CandidateOf(r.created.value) == c
      && CandidateOf(r.created.value) == CandidateOf(Synthesize(c, clientId, clientNow))
  {
    var c := Payload(photo, description, date, link);
    PayloadIsClean(photo, description, date, link);
    var b := WireBody(c, iso);
    assert HasRequiredFields(b);
    var e := StoredRow(b, toDate, id, createdAt);
    assert Post(Some(b), toDate, Returns((id, createdAt))).created == Some(e);
    assert NormaliseLink(c.link) == c.link;
    assert CandidateOf(e) == c;
  }

  /** The card shows "Visit" for a submitted entry exactly when the link field
      held something other than whitespace, on the server path and on the
      fallback path alike. */
  lemma VisitLinkFollowsLinkField(photo: string, description: string, date: Date, link: string,
                                  iso: Date -> string, toDate: string -> Date,
                                  id: string, createdAt: Date, clientId: string, clientNow: Date)
    requires CanSubmit(photo, description)
    requires iso(date) != "" && toDate(iso(date)) == date
    ensures var c := Payload(photo, description, date, link);
      var r := Post(Some(WireBody(c, iso)), toDate, Returns((id, createdAt)));
      && (ShowsVisitLink(r.created.value) <==> exists i :: 0 <= i < |link| && !IsWhitespace(link[i]))
      && (ShowsVisitLink(Synthesize(c, clientId, clientNow)) <==> exists i :: 0 <= i < |link| && !IsWhitespace(link[i]))
  {
    SubmittedCandidateIsStored(photo, description, date, link, iso, toDate, id, createdAt, clientId, clientNow);
    PayloadIsClean(photo, description, date, link);
  }

  /** The server trims nothing: a description the dialog refuses to send is
      stored when it reaches the route by another client. */
  lemma ServerLaxerThanForm(photo: string, description: string, date: string,
                            toDate: string -> Date, id: string, createdAt: Date)
    requires photo != "" && date != "" && description != ""
    requires forall i :: 0 <= i < |description| ==> IsWhitespace(description[i])
    ensures !CanSubmit(photo, description)
    ensures Post(Some(PostBody(Some(photo), Some(description), Some(date), None)), toDate, Returns((id, createdAt))).response.status == 201
  {
  }

  /**
   * A first load against a working store shows the stored records newest
   * first, and the timeline's month groups, read in order, show that same
   * list.
   */
  method LoadAndRender(stored: Option<seq<Entry>>, databaseUrl: Option<string>, table: seq<Entry>,
                       rows: seq<Entry>, monthKey: Date -> MonthKey)
    returns (shown: seq<Entry>, rendered: seq<Entry>)
    requires Truthy(databaseUrl) && OrderedByDateDesc(table, rows) && RunsOfDates(monthKey)
    ensures Sorted(shown) && multiset(shown) == multiset(table)
    ensures rendered == shown
  {
    var response := Get(databaseUrl, Returns(()), Returns(rows)).response;
    var page := new Home(stored);
    page.FetchEntries(ListReply(response));
    shown := page.entries;
    var groups := GroupByMonth(shown, monthKey);
    GroupsOfSortedListReassemble(shown, monthKey);
    rendered := Flatten(groups);
  }

  /**
   * When the database is not configured the page shows the cached list, and
   * adding an entry then keeps the page and the cache equal and newest first.
   */
  method UnconfiguredServerUsesCache(cached: seq<Entry>, c: Candidate, iso: Date -> string, toDate: string -> Date,
                                     clientId: string, clientNow: Date, monthKey: Date -> MonthKey)
    returns (shown: seq<Entry>, cache: Option<seq<Entry>>, rendered: seq<Entry>)
    requires Sorted(cached) && RunsOfDates(monthKey)
    ensures cache == Some(shown)
    ensures shown == SortByDateDesc([Synthesize(c, clientId, clientNow)] + cached)
    ensures rendered == shown
  {
    var page := new Home(Some(cached));
    page.FetchEntries(ListReply(Get(None, Returns(()), Returns([])).response));
    assert page.entries == cached;
    var r := Post(Some(WireBody(c, iso)), toDate, Raises(None));
    page.AddEntry(c, RecordReply(r.response), clientId, clientNow);
    shown := page.entries;
    cache := page.cache;
    var groups := GroupByMonth(shown, monthKey);
    GroupsOfSortedListReassemble(shown, monthKey);
    rendered := Flatten(groups);
  }
}
