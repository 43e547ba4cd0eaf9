/**
 * The timeline record (apps/web/src/lib/types.ts) and the two ways the
 * application builds one: on the server, from a stored row, and on the
 * client, from a form candidate when the server cannot be reached.
 */
module Entries {
  import opened Wrappers

  /** Calendar dates and timestamps are modelled as integers (larger is later). */
  type Date = int

  datatype Entry = Entry(
    id: string,
    photo: string,          // a data URL or a remote URL, opaque here
    description: string,
    date: Date,             // when the event happened
    link: Option<string>,   // optional related URL
    createdAt: Date)        // when the record was stored

  /** What the form hands to the page: an entry without `id` and `createdAt`. */
  datatype Candidate = Candidate(photo: string, description: string, date: Date, link: Option<string>)

  /** JavaScript truthiness of a value that is either absent or a string. */
  predicate Truthy(s: Option<string>)
  {
    s.Some? && s.value != ""
  }

  /** Forgets the two fields the store (or the client) assigns. */
  function CandidateOf(e: Entry): Candidate
  {
    Candidate(e.photo, e.description, e.date, e.link)
  }

  /** The record the page builds on its fallback path: the candidate's own fields
      plus an identifier and a creation time supplied by the client. */
  function Synthesize(c: Candidate, id: string, createdAt: Date): (e: Entry)
    ensures CandidateOf(e) == c
    ensures e.id == id && e.createdAt == createdAt
  {
    Entry(id, c.photo, c.description, c.date, c.link, createdAt)
  }
}
