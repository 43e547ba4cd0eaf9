/**
 * The collection route of the entries API (apps/web/src/app/api/entries/route.ts).
 *
 * Both handlers are straight-line decisions on their inputs. The environment
 * variable DATABASE_URL, the parsed request body and the result of every
 * awaited store call are parameters; a handler returns the response it builds
 * together with the store calls it issued (GET) or the row it created (POST).
 */
module EntriesRoute {
  import opened Wrappers
  import opened Entries
  import opened EntryOrder

  /** One awaited store call: the value it resolved to, or the error it threw
      (`message` is present when the thrown value is an `Error`). */
  datatype StoreCall<T> = Returns(value: T) | Raises(message: Option<string>)

  /** The store calls GET can issue. */
  datatype StoreQuery = ProbeTable | FindManyByDateDesc

  /** The JSON payload of a response. */
  datatype Body =
    | EntryList(entries: seq<Entry>)
    | Record(entry: Entry)
    | ErrorBody(error: string, details: Option<string>)

  datatype Response = Response(status: int, body: Body)

  const NotConfigured: string := "Database not configured. Please set DATABASE_URL environment variable."
  const FetchFailed: string := "Failed to fetch entries. Check database connection."
  const UnknownError: string := "Unknown error"
  const MissingFields: string := "Missing required fields"
  const CreateFailed: string := "Failed to create entry"

  /** The `details` field: the error's message, or a fixed text for a thrown non-Error. */
  function Details(message: Option<string>): (r: string)
    ensures message.Some? ==> r == message.value
    ensures message.None? ==> r == UnknownError
  {
    match message
    case Some(m) => m
    case None => UnknownError
  }

  // ----- GET -----

  datatype GetOutcome = GetOutcome(response: Response, queries: seq<StoreQuery>)

  /**
   * GET /api/entries. The configuration check comes first and issues no query;
   * a failing schema probe answers an empty list; otherwise the rows of
   * `findMany` ordered by date, newest first, or a 500 with the error details.
   */
  function Get(databaseUrl: Option<string>, probe: StoreCall<()>, rows: StoreCall<seq<Entry>>): (r: GetOutcome)
    ensures r.response.status == 200 || r.response.status == 500
    ensures r.response.status == 200 <==> r.response.body.EntryList?
    ensures r.response.status == 500 <==> !Truthy(databaseUrl) || (probe.Returns? && rows.Raises?)
    ensures r.queries == [] <==> !Truthy(databaseUrl)
    ensures r.queries <= [ProbeTable, FindManyByDateDesc]
  {
    if !Truthy(databaseUrl) then
      GetOutcome(Response(500, ErrorBody(NotConfigured, None)), [])
    else
      match probe
      case Raises(_) =>
        GetOutcome(Response(200, EntryList([])), [ProbeTable])
      case Returns(_) =>
        match rows
        case Raises(m) =>
          GetOutcome(Response(500, ErrorBody(FetchFailed, Some(Details(m)))), [ProbeTable, FindManyByDateDesc])
        case Returns(list) =>
          GetOutcome(Response(200, EntryList(list)), [ProbeTable, FindManyByDateDesc])
  }

  /** Without a configured database the store is never touched. */
  lemma GetUnconfigured(databaseUrl: Option<string>, probe: StoreCall<()>, rows: StoreCall<seq<Entry>>)
    requires !Truthy(databaseUrl)
    ensures Get(databaseUrl, probe, rows) == GetOutcome(Response(500, ErrorBody(NotConfigured, None)), [])
  {
  }

  /** A missing table (or any failure of the probe) reads as an empty timeline. */
  lemma GetProbeFails(databaseUrl: Option<string>, message: Option<string>, rows: StoreCall<seq<Entry>>)
    requires Truthy(databaseUrl)
    ensures Get(databaseUrl, Raises(message), rows).response == Response(200, EntryList([]))
    ensures Get(databaseUrl, Raises(message), rows).queries == [ProbeTable]
  {
  }

  /** A failing `findMany` answers 500, with the error's message as details. */
  lemma GetQueryFails(databaseUrl: Option<string>, message: Option<string>)
    requires Truthy(databaseUrl)
    ensures var r := Get(databaseUrl, Returns(()), Raises(message)).response;
      && r.status == 500
      && r.body == ErrorBody(FetchFailed, Some(if message.Some? then message.value else UnknownError))
  {
  }

  /** The store honours `orderBy: { date: 'desc' }`: the rows are the
      table's records, newest first (ties in any order). */
  predicate OrderedByDateDesc(table: seq<Entry>, rows: seq<Entry>)
  {
    multiset(rows) == multiset(table) && Sorted(rows)
  }

  /** Every 200 answer lists entries newest first; once the probe succeeds it
      lists exactly the stored records. */
  lemma GetListsNewestFirst(databaseUrl: Option<string>, probe: StoreCall<()>, table: seq<Entry>, rows: StoreCall<seq<Entry>>)
    requires rows.Returns? ==> OrderedByDateDesc(table, rows.value)
    ensures var r := Get(databaseUrl, probe, rows).response;
      r.status == 200 ==>
        && Sorted(r.body.entries)
        && (probe.Returns? ==> multiset(r.body.entries) == multiset(table))
  {
  }

  // ----- POST -----

  /**
   * The destructured fields of a parsed request body. Each is absent
   * (`undefined` or `null`) or a string; a JSON value that is not an object
   * has all four absent.
   */
  datatype PostBody = PostBody(photo: Option<string>, description: Option<string>, date: Option<string>, link: Option<string>)

  datatype PostOutcome = PostOutcome(response: Response, created: Option<Entry>)

  /** `link || null`: a missing or empty link is stored as null. */
  function NormaliseLink(link: Option<string>): (r: Option<string>)
    ensures r.Some? <==> Truthy(link)
    ensures r.Some? ==> r == link
  {
    if link.Some? && link.value != "" then link else None
  }

  /** The check `photo && description && date`: each present and non-empty
      (nothing is trimmed). */
  predicate HasRequiredFields(b: PostBody)
  {
    Truthy(b.photo) && Truthy(b.description) && Truthy(b.date)
  }

  /** The row the store is asked to create, with the identifier and creation
      time the store assigns. */
  function StoredRow(b: PostBody, toDate: string -> Date, id: string, createdAt: Date): (e: Entry)
    requires HasRequiredFields(b)
    ensures e.photo == b.photo.value && e.description == b.description.value
    ensures e.date == toDate(b.date.value) && e.link == NormaliseLink(b.link)
    ensures e.id == id && e.createdAt == createdAt
  {
    Entry(id, b.photo.value, b.description.value, toDate(b.date.value), NormaliseLink(b.link), createdAt)
  }

  /**
   * POST /api/entries. `body` is None when `request.json()` or the
   * destructuring throws (malformed JSON, a `null` body); `toDate` is
   * `new Date(·)`; `create` is the outcome of `prisma.timelineEntry.create`.
   */
  function Post(body: Option<PostBody>, toDate: string -> Date, create: StoreCall<(string, Date)>): (r: PostOutcome)
    ensures r.response.status == 201 || r.response.status == 400 || r.response.status == 500
    ensures r.created.Some? <==> r.response.status == 201
    ensures r.response.status == 400 <==> body.Some? && !HasRequiredFields(body.value)
    ensures r.response.status == 500 <==> body.None? || (HasRequiredFields(body.value) && create.Raises?)
    ensures r.created.Some? ==>
      && body.Some? && HasRequiredFields(body.value) && create.Returns?
      && r.created.value == StoredRow(body.value, toDate, create.value.0, create.value.1)
      && r.response.body == Record(r.created.value)
  {
    match body
    case None =>
      PostOutcome(Response(500, ErrorBody(CreateFailed, None)), None)
    case Some(b) =>
      if b.photo.None? || b.photo.value == "" || b.description.None? || b.description.value == ""
         || b.date.None? || b.date.value == "" then
        PostOutcome(Response(400, ErrorBody(MissingFields, None)), None)
      else
        match create
        case Raises(_) =>
          PostOutcome(Response(500, ErrorBody(CreateFailed, None)), None)
        case Returns((id, createdAt)) =>
          var e := Entry(id, b.photo.value, b.description.value, toDate(b.date.value), NormaliseLink(b.link), createdAt);
          PostOutcome(Response(201, Record(e)), Some(e))
  }

  /** A rejected or failed POST creates nothing and names its reason. */
  lemma PostErrors(body: Option<PostBody>, toDate: string -> Date, create: StoreCall<(string, Date)>)
    ensures var r := Post(body, toDate, create);
      && (r.response.status == 400 ==> r.response.body == ErrorBody(MissingFields, None))
      && (r.response.status == 500 ==> r.response.body == ErrorBody(CreateFailed, None))
      && (r.response.status != 201 ==> r.created == None)
  {
  }

  /** An empty link and a missing link are both stored as null. */
  lemma EmptyLinkStoredAsNull(photo: string, description: string, date: string, toDate: string -> Date, id: string, createdAt: Date)
    requires photo != "" && description != "" && date != ""
    ensures Post(Some(PostBody(Some(photo), Some(description), Some(date), Some(""))), toDate, Returns((id, createdAt))).created.value.link == None
    ensures Post(Some(PostBody(Some(photo), Some(description), Some(date), None)), toDate, Returns((id, createdAt))).created.value.link == None
  {
  }

  /** The server does not trim: a description made only of spaces is stored. */
  lemma BlankDescriptionAccepted(photo: string, date: string, toDate: string -> Date, id: string, createdAt: Date)
    requires photo != "" && date != ""
    ensures var r := Post(Some(PostBody(Some(photo), Some("   "), Some(date), None)), toDate, Returns((id, createdAt)));
      r.response.status == 201 && r.created.value.description == "   "
  {
  }
}
