/**
 The values the incremental stargazer collector works on: the raw records of the
 stargazers list, the user profiles of the detail endpoint, the enriched records
 that are persisted, and the per-run `limit`.
 */
module Records {

  datatype Option<T> = None | Some(value: T)

  /** A `starred_at` instant, already parsed from its fixed `YYYY-MM-DDTHH:MM:SSZ` form
      (seconds). For that fixed form the textual and the chronological order agree. */
  type Timestamp = int

  /** Number of records on one page of the stargazers list (fixed by the platform). */
  const PageSize: nat := 30

  /** One item of the stargazers list: the user's login and when the star was given. */
  datatype StarRecord = StarRecord(login: string, starredAt: Timestamp)

  /** The part of a user profile that is written to the snapshot. */
  datatype Profile = Profile(
    login: string,
    name: Option<string>,
    location: Option<string>,
    company: Option<string>,
    email: Option<string>,
    twitter: Option<string>,
    followers: int,
    bio: Option<string>)

  /** A profile with the `starred_at` of the list record it was fetched for. */
  datatype Enriched = Enriched(profile: Profile, starredAt: Timestamp)

  /** `limit` is read by its truthiness: both an absent limit and a limit of 0 mean "no cap". */
  predicate Capped(limit: Option<int>)
  {
    limit.Some? && limit.value != 0
  }

  function Max(a: int, b: int): int
  {
    if a < b then b else a
  }

  function Min(a: int, b: int): int
  {
    if a < b then a else b
  }
}
