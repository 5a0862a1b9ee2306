/** The records that flow through the analysis. */
module Movies {
  import opened Wrappers
  import opened Keys

  /** The two gender categories the analysis distinguishes. */
  datatype Gender = Female | Other

  /** A director as stored in the cache's `Directors` column. */
  datatype Director = Director(name: string, gender: Gender)

  /**
   * One cleaned row of the user's export: `Name`, `Year`, `Rating` and
   * `Letterboxd URI`. The rating is an exact real.
   */
  datatype UserRow = UserRow(name: string, year: int, rating: real, uri: string)

  /** One row of the cache: `Name`, `Year`, `URI`, `TMDB_ID` (nullable), `Directors`. */
  datatype CacheRow = CacheRow(name: string, year: int, uri: string, tmdbId: Option<int>, directors: seq<Director>)

  /** What one lookup returns: the movie id, if any, and its directors. */
  datatype FetchResult = FetchResult(movieId: Option<int>, directors: seq<Director>)

  function UserKey(u: UserRow): string
  {
    Key(u.name, u.year)
  }

  function CacheKey(c: CacheRow): string
  {
    Key(c.name, c.year)
  }

  /** Every user row and every cache row carries a four-digit year. */
  predicate FourDigitYears(users: seq<UserRow>, rows: seq<CacheRow>)
  {
    (forall u :: u in users ==> FourDigitYear(u.year)) && (forall c :: c in rows ==> FourDigitYear(c.year))
  }
}
