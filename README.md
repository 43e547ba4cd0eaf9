# Timeline app: client state, month grouping, entries API, form and card

A Dafny model of the sequential logic of a small photo-timeline web
application. A user adds entries (a photo, a description, a date and an
optional link); the page shows them newest first, grouped by month; each card
can be deleted with a two-click confirmation. The page talks to a REST route
backed by a database and falls back to a single local-storage slot when the
server cannot be reached.

Modules, one per source file or concern:

- `Wrappers` — `Option`.
- `Entries` — the `TimelineEntry` record (`Entry`), the form's `Candidate`
  (an entry without `id`/`createdAt`), JavaScript truthiness of an optional
  string, and the record the page synthesises on its fallback path.
- `EntryOrder` — the two list expressions of the home page: the stable sort by
  date, newest first (`Array.prototype.sort` is stable by section 23.1.3.30 of
  ECMA-262), and the filter that removes an id. The sort is proved sorted, a
  permutation, stable, and the unique sequence with those properties.
- `HomePage` — class `Home`: the `entries` list, the `'timeline-entries'`
  cache slot (`Option<seq<Entry>>`) and the `isLoaded`, `isLoading`,
  `isModalOpen` flags; `FetchEntries`, `AddEntry`, `DeleteEntry` take the
  outcome of their server call (`Ok(payload) | NotOk | Throws`) as a parameter.
- `Timeline` — the `reduce` into a month-keyed dictionary, as a loop over a
  map accumulator with an insertion-order key list (`GroupByMonth`), proved
  equal to the specification function `Grouping`; the month label is the
  parameter `monthKey`. `Object.entries` lists keys in insertion order only
  when they are not array indices; month-year labels such as "March 2024"
  contain letters and a space, so they never are, and the first-occurrence
  order proved for `Grouping` is the order the page renders.
- `EntriesRoute` — `GET` and `POST` of the collection route as pure functions
  of the configuration, the parsed body and the outcomes of the store calls.
- `AddEntryForm` — `String.prototype.trim`, the submit guard, the payload and
  class `AddEntryModal` with the form fields, the drag flag and the handlers;
  `onAdd`/`onClose` calls are logged in `calls`.
- `EntryCard` — class `TimelineEntryCard` with the delete-confirmation flag,
  an explicit timer event, and the "Visit" link condition.
- `EndToEnd` — lemmas and scenarios joining the form, the route, the page and
  the grouping.

Dates and timestamps are integers (larger is later). Identifiers are strings;
client-generated ids are parameters and are not assumed unique.

Two behaviours of the code worth knowing:

- `GET` answers 200 with an empty list whenever the table probe throws. The
  comment at apps/web/src/app/api/entries/route.ts:19 expects this only when
  the table does not exist yet, but an unreachable database after a
  configured URL also reads as an empty timeline
  (`EntriesRoute.GetProbeFails`).
- The server does not trim: a description of only spaces is accepted and
  stored (`EntriesRoute.BlankDescriptionAccepted`), although the form never
  sends one (`EndToEnd.ServerLaxerThanForm`).

## Model

| member | source | states |
|---|---|---|
| `Entries.Synthesize` | apps/web/src/app/page.tsx:77-81 | the fallback record keeps the candidate's photo, description, date and link and takes the client-supplied id and createdAt |
| `EntryOrder.SortByDateDesc` | apps/web/src/app/page.tsx:72-74 | the sorted list is a permutation of its input and is ordered by date, newest first |
| `EntryOrder.SortIsStable` | apps/web/src/app/page.tsx:72-74 | for every date, the entries of that date leave the sort in the order they entered it |
| `EntryOrder.StableSortUnique` | apps/web/src/app/page.tsx:72-74 | two lists sorted newest first with equal per-date subsequences are equal, so sorted + stable + permutation fixes the result of the stable sort |
| `EntryOrder.SortKeepsSorted` | apps/web/src/app/page.tsx:72-74 | sorting a list that is already newest first returns it unchanged |
| `EntryOrder.AddEntryOrder` | apps/web/src/app/page.tsx:83-85 | `[entry, ...prev].sort(...)` is sorted, a permutation of `[entry] + prev`, the new entry precedes every earlier entry of its date, and entries of other dates keep their order |
| `EntryOrder.AddToSortedInserts` | apps/web/src/app/page.tsx:100-102 | when `prev` is newest first the result is `prev` with the new entry inserted at one position |
| `EntryOrder.Without` | apps/web/src/app/page.tsx:119 | no entry with the target id remains, and every other entry keeps its multiplicity |
| `EntryOrder.WithoutIsSubsequence` | apps/web/src/app/page.tsx:123 | the filtered list is a subsequence of the input, so survivors keep their order |
| `EntryOrder.WithoutAbsent` | apps/web/src/app/page.tsx:132 | deleting an id no entry carries leaves the list unchanged |
| `EntryOrder.DeleteKeepsSorted` | apps/web/src/app/page.tsx:119 | deleting from a newest-first list leaves it newest first |
| `HomePage.Home.constructor` | apps/web/src/app/page.tsx:10-13 | the page starts with no entries, all three flags false, and the cache slot as the device stores it |
| `HomePage.Home.FetchEntries` | apps/web/src/app/page.tsx:20-43 | an ok reply sets entries to the payload; a non-ok or thrown reply sets them to the cached list when present and leaves them otherwise; the cache is never written; isLoaded is true after every outcome |
| `HomePage.Home.AddEntry` | apps/web/src/app/page.tsx:59-110 | entries become the stable date-descending sort of the added record (server's or synthesised) before the old list; only the fallback paths write the cache, which then equals entries; isModalOpen and isLoading end false |
| `HomePage.Home.DeleteEntry` | apps/web/src/app/page.tsx:112-137 | entries become the old list without the id on every path; only the fallback paths write the cache, which then equals entries; flags unchanged |
| `HomePage.Home.OpenModal` | apps/web/src/app/page.tsx:150 | the add button opens the dialog and changes nothing else |
| `HomePage.Home.CloseModal` | apps/web/src/app/page.tsx:184 | the dialog's close callback closes it and changes nothing else |
| `HomePage.FallbackSurvivesReload` | apps/web/src/app/page.tsx:99-104 | an entry added while the server is down is in the cache, and a later offline load shows exactly the list the session ended with |
| `Timeline.GroupByMonth` | apps/web/src/components/Timeline.tsx:13-25 | the fold with a dictionary accumulator, read in insertion order, equals the specification grouping |
| `Timeline.KeysAreTheLabels` | apps/web/src/components/Timeline.tsx:20-22 | the keys are exactly the labels occurring in the input, each listed once |
| `Timeline.GroupsAreLabelled` | apps/web/src/components/Timeline.tsx:14-23 | group keys are pairwise distinct and every member of a group carries its key |
| `Timeline.EachEntryInItsGroup` | apps/web/src/components/Timeline.tsx:13-25 | every input entry is in the group of its own label and in no other |
| `Timeline.GroupingIsPartition` | apps/web/src/components/Timeline.tsx:13-25 | the groups together hold exactly the input multiset, so their sizes add up to the input length |
| `Timeline.GroupsKeepInputOrder` | apps/web/src/components/Timeline.tsx:23 | each group is a subsequence of the input |
| `Timeline.GroupsInFirstOccurrenceOrder` | apps/web/src/components/Timeline.tsx:20-32 | groups appear in the order of the first occurrence of their key in the input |
| `Timeline.GroupCount` | apps/web/src/components/Timeline.tsx:20-22 | the number of groups is the number of distinct labels in the input |
| `Timeline.GroupsOfSortedListReassemble` | apps/web/src/components/Timeline.tsx:13-25 | for a newest-first list and a label that covers runs of dates, concatenating the groups gives back the list |
| `EntriesRoute.Get` | apps/web/src/app/api/entries/route.ts:5-36 | status is 200 (with a list) or 500; 500 exactly when the URL is not configured or the probe succeeds and findMany throws; no store query exactly when not configured |
| `EntriesRoute.GetUnconfigured` | apps/web/src/app/api/entries/route.ts:8-13 | a missing or empty DATABASE_URL answers 500 with the configuration message and issues no store query |
| `EntriesRoute.GetProbeFails` | apps/web/src/app/api/entries/route.ts:16-21 | a failing table probe answers 200 with an empty list after one query |
| `EntriesRoute.GetQueryFails` | apps/web/src/app/api/entries/route.ts:29-35 | a failing findMany answers 500 with the fetch-failed message and the error details |
| `EntriesRoute.GetListsNewestFirst` | apps/web/src/app/api/entries/route.ts:23-28 | every 200 list is newest first, and after a successful probe it holds exactly the stored records |
| `EntriesRoute.NormaliseLink` | apps/web/src/app/api/entries/route.ts:53 | the stored link is present exactly when the given link is truthy, and is then that link |
| `EntriesRoute.StoredRow` | apps/web/src/app/api/entries/route.ts:48-55 | the created row carries the body's photo, description and converted date, the normalised link and the store's id and createdAt |
| `EntriesRoute.Post` | apps/web/src/app/api/entries/route.ts:39-62 | 400 exactly when a parsed body lacks a truthy photo, description or date; 500 exactly when the body does not parse or the create throws; 201 exactly when a record is created, and the response carries it |
| `EntriesRoute.PostErrors` | apps/web/src/app/api/entries/route.ts:44-61 | a 400 names the missing fields, a 500 the failed creation, and neither creates anything |
| `EntriesRoute.EmptyLinkStoredAsNull` | apps/web/src/app/api/entries/route.ts:53 | an empty link and a missing link are both stored as null |
| `EntriesRoute.BlankDescriptionAccepted` | apps/web/src/app/api/entries/route.ts:44 | a description of only spaces passes validation and is stored as given |
| `AddEntryForm.TrimIsInfix` | apps/web/src/components/AddEntryModal.tsx:54 | trim yields the infix left after removing the longest whitespace prefix and suffix |
| `AddEntryForm.TrimBlank` | apps/web/src/components/AddEntryModal.tsx:54 | trim yields the empty string exactly when every character is whitespace |
| `AddEntryForm.TrimIdempotent` | apps/web/src/components/AddEntryModal.tsx:57 | trimming a trimmed string changes nothing |
| `AddEntryForm.CanSubmitMeans` | apps/web/src/components/AddEntryModal.tsx:54 | the submit guard holds exactly when the photo is non-empty and the description has a non-whitespace character |
| `AddEntryForm.SubmitDisabled` | apps/web/src/components/AddEntryModal.tsx:202 | the button is disabled exactly when the submit guard fails |
| `AddEntryForm.LinkField` | apps/web/src/components/AddEntryModal.tsx:59 | the link is present exactly when it has a non-whitespace character, and is then the trimmed link |
| `AddEntryForm.PayloadIsClean` | apps/web/src/components/AddEntryModal.tsx:55-60 | a submitted payload keeps the photo and date, has a non-empty trimmed description, and a link that is absent or non-empty and trimmed |
| `AddEntryForm.AddEntryModal.constructor` | apps/web/src/components/AddEntryModal.tsx:14-18 | the fields start empty with today's date, not dragging, no calls |
| `AddEntryForm.AddEntryModal.ButtonDisabled` | apps/web/src/components/AddEntryModal.tsx:202 | the rendered disabled attribute is the negation of the submit guard on the current fields |
| `AddEntryForm.AddEntryModal.HandleFileUpload` | apps/web/src/components/AddEntryModal.tsx:23-31 | only a file whose MIME type starts with `image/` replaces the photo; nothing else changes |
| `AddEntryForm.AddEntryModal.HandleDrop` | apps/web/src/components/AddEntryModal.tsx:33-40 | a drop ends the drag and uploads the first file, if any |
| `AddEntryForm.AddEntryModal.HandleDragOver` | apps/web/src/components/AddEntryModal.tsx:42-45 | drag-over sets the drag flag and changes nothing else |
| `AddEntryForm.AddEntryModal.HandleDragLeave` | apps/web/src/components/AddEntryModal.tsx:47-50 | drag-leave clears the drag flag and changes nothing else |
| `AddEntryForm.AddEntryModal.HandleFileChosen` | apps/web/src/components/AddEntryModal.tsx:135 | choosing files uploads the first, if any |
| `AddEntryForm.AddEntryModal.ClearPhoto` | apps/web/src/components/AddEntryModal.tsx:109 | the preview's remove button empties the photo only |
| `AddEntryForm.AddEntryModal.SetDescription` | apps/web/src/components/AddEntryModal.tsx:150 | typing sets the description only |
| `AddEntryForm.AddEntryModal.SetDate` | apps/web/src/components/AddEntryModal.tsx:167 | picking a date sets the date only |
| `AddEntryForm.AddEntryModal.SetLink` | apps/web/src/components/AddEntryModal.tsx:182 | typing sets the link only |
| `AddEntryForm.AddEntryModal.HandleSubmit` | apps/web/src/components/AddEntryModal.tsx:52-67 | when the guard holds, one `onAdd` with the cleaned payload and the four fields reset (date to today); otherwise no call and no field changes |
| `AddEntryForm.AddEntryModal.HandleClose` | apps/web/src/components/AddEntryModal.tsx:69-75 | the four fields are reset and `onClose` is called exactly once |
| `AddEntryForm.SubmitTwice` | apps/web/src/components/AddEntryModal.tsx:52-67 | after a successful submit the button is disabled and a second submit sends nothing more |
| `AddEntryForm.BlankDescriptionNotSent` | apps/web/src/components/AddEntryModal.tsx:54 | a whitespace-only description is never sent |
| `AddEntryForm.NonImageIgnored` | apps/web/src/components/AddEntryModal.tsx:24 | dropping a non-image file leaves the photo empty |
| `EntryCard.ShowsVisitLink` | apps/web/src/components/TimelineEntryCard.tsx:69 | the Visit link is shown exactly when the entry's link is present and non-empty |
| `EntryCard.TimelineEntryCard.constructor` | apps/web/src/components/TimelineEntryCard.tsx:13 | a card starts unarmed, with no pending timer and no delete request |
| `EntryCard.TimelineEntryCard.HandleDelete` | apps/web/src/components/TimelineEntryCard.tsx:23-31 | a click while armed calls `onDelete` once and stays armed; a click while unarmed arms and schedules one reset without calling `onDelete` |
| `EntryCard.TimelineEntryCard.TimerFires` | apps/web/src/components/TimelineEntryCard.tsx:29 | the scheduled reset disarms the card and requests nothing |
| `EntryCard.TwoClicksDeleteOnce` | apps/web/src/components/TimelineEntryCard.tsx:23-31 | two clicks on a fresh card with no timeout between them call `onDelete` exactly once |
| `EntryCard.TimeoutBetweenClicks` | apps/web/src/components/TimelineEntryCard.tsx:26-29 | when the reset fires between two clicks, nothing is deleted and the card is armed again |
| `EntryCard.ThreeClicksDeleteTwice` | apps/web/src/components/TimelineEntryCard.tsx:24-25 | every click on an armed card calls `onDelete` again |
| `EndToEnd.WireBody` | apps/web/src/app/page.tsx:67 | the POST body sent for a candidate passes the route's required-field check exactly when photo, description and ISO date text are non-empty; an absent link stays absent; the date goes out as its ISO text |
| `EndToEnd.ListReply` | apps/web/src/app/page.tsx:22-24 | a 2xx answer carrying a list is `Ok` with that list; anything else is `NotOk` |
| `EndToEnd.RecordReply` | apps/web/src/app/page.tsx:70-71 | a 2xx answer carrying a record is `Ok` with that record; anything else is `NotOk` |
| `EndToEnd.LoadFollowsGet` | apps/web/src/app/page.tsx:22-26 | the page takes the server's list exactly when GET answers 200 (configured URL and either a failing probe or a successful findMany), and every 500 sends it to the cache |
| `EndToEnd.AddFollowsPost` | apps/web/src/app/page.tsx:70-75 | the page keeps the server's record exactly when POST created one, and that record is the one created; every 400 and 500 takes the fallback path |
| `EndToEnd.SubmittedCandidateIsStored` | apps/web/src/app/api/entries/route.ts:44-57 | a payload the form sends passes the route's validation, and the stored record and the fallback record both carry exactly that payload |
| `EndToEnd.VisitLinkFollowsLinkField` | apps/web/src/components/TimelineEntryCard.tsx:69 | a submitted entry shows "Visit" exactly when the form's link field had a non-whitespace character, on both the server and the fallback path |
| `EndToEnd.ServerLaxerThanForm` | apps/web/src/app/api/entries/route.ts:44 | a whitespace-only description is refused by the form yet accepted by the route |
| `EndToEnd.LoadAndRender` | apps/web/src/app/page.tsx:22-25 | a load against a working store shows the stored records newest first, and the month groups read in order show that same list |
| `EndToEnd.UnconfiguredServerUsesCache` | apps/web/src/app/page.tsx:26-31 | with the database unconfigured the page shows the cache, and a later add keeps page and cache equal and newest first |

## Left out

- Rendering: JSX, styling, icons, the loading and empty-state markup, the entry counter text.
- Network and database: `fetch`, the request and response objects and the Prisma calls are outcome parameters (`Reply`, `StoreCall`); `DATABASE_URL` is an optional string with JavaScript truthiness.
- JSON: `JSON.stringify`/`JSON.parse` of the cache and of request bodies; the cache slot holds the list itself, and a body that fails to parse is `None`.
- POST body fields are modelled as absent or strings; a truthy non-string JSON value (a number, an object) is not modelled.
- Dates: `new Date`, `Date.now`, `toISOString`, `toLocaleDateString` and invalid dates; dates are integers, the month label is the parameter `monthKey`, "today", the client id and the client timestamp are parameters, and an invalid date reaching the store is one more way for the create call to throw.
- `FileReader` is taken to finish at once with the file's data URL; `setTimeout` is the explicit `TimerFires` event with no clock.
- Overlapping requests: the `prev =>` updaters of concurrent add and delete calls are not modelled; one action runs at a time.
- The DELETE route `apps/web/src/app/api/entries/[id]/route.ts` is not part of this model; its answer is only the `Reply` given to `DeleteEntry`.
- HomePage.Home.FetchEntries: "does not read the cache on success" is stated as the resulting list being the payload whatever the cache holds; reads themselves are not observable in the model.
- AddEntryForm.AddEntryModal.HandleSubmit models the submit handler only; the browser's own form validation (`required` on the description and date fields, `type="url"` on the link field, apps/web/src/components/AddEntryModal.tsx:154, 169, 180) can block the submit event before the handler runs, and that blocking is not modelled.
- The `!isOpen` early return of the dialog and the `!isLoaded` early return of the page only decide what is rendered; the state they guard is modelled as always present.
