# Women-directed film statistics for a Letterboxd export — Dafny model

The analysis endpoint of the service takes a user's exported Letterboxd
ratings (film name, year, rating, Letterboxd URI). It enriches each film with
its directors, fetched from TMDB and kept in a persistent movie cache. It then
reports four things:

- the average rating of films directed by women;
- the average rating of the other films;
- the most watched woman director;
- the user's top-rated films directed by women.

This project models the sequential pipeline inside that endpoint:

- **Lookup** (`fetcher.dfy`, module `Fetcher`): `get_movie_data`. The two
  HTTP replies are inputs: the movie search and the credits of the first hit.
  A failed request is the reply `Failed`, and a missing JSON key is `None`.
  The lookup yields the first hit's id and the crew entries whose job is
  "Director". Each director is labelled `Female` when the gender code is 1 and
  `Other` otherwise. No results, a failed request, or a missing `results`,
  `id`, `job`, `name` or `gender` key gives `(None, [])`. A missing `crew`
  key is read as an empty crew, so it gives the first hit's id and no
  directors.
- **Cache key** (`keys.dfy`, module `Keys`): the known-check key
  `Name + str(Year)`, with Python's decimal rendering of the year.
- **Cache and enrichment** (`cache.dfy`, module `Cache`): the cache is a
  class `MovieCache` whose `rows` field only grows. The user rows to look up
  are those whose key is not cached. They are not deduplicated. One new cache
  row is built per looked-up row, with a falsy id stored as null. The new rows
  are appended after the old ones.
- **Join** (`join.dfy`, module `Join`): the inner merge of user rows with
  cache rows on (`Name`, `Year`).
- **Aggregation** (`aggregation.dfy`, module `Aggregation`): a nested loop
  over (row, director) pairs fills the female and other rating buckets and the
  tally of women directors. Then come the averages (`sum/len`, or 0 when the
  bucket is empty), `Counter.most_common(1)` over the tally, and the top picks.
- **Endpoint** (`pipeline.dfy`, module `Pipeline`): enrichment, join and
  report in sequence.

Ratings are exact `real`s, so averages and equality with the maximum are
exact.

Where the design description of the service and the code disagree, the model
follows the code:

- The design says each distinct (title, year) key is looked up once. The code
  looks up one row per user row with an unknown key, so a repeated row is
  looked up, and cached, twice.
- The design says a null id means no match was found. The code also stores a
  null id when the lookup returned id 0, because `int(m_id) if m_id else None`
  treats 0 as false. The directors are kept in that case.
- The design asks for one composite key for both the known-check and the join.
  The code checks a concatenated string key and joins on the pair. The model
  proves that the two agree for four-digit years (`KeyInjective`,
  `CachedUsersJoin`), and exhibits a disagreement for a three-digit year
  (`CollidingKeyIsLost`).

## Model

| member | source | states |
|---|---|---|
| `Fetcher.Label` | api/src/main.py:43 | a director entry keeps its name and is `Female` exactly when its gender code is 1 |
| `Fetcher.ExtractDirectors` | api/src/main.py:42-45 | the comprehension succeeds exactly when no entry lacks `job` and no director entry lacks `name` or `gender`; it then yields one director per "Director" crew entry, in crew order, labelled by `Label` |
| `Fetcher.DirectorEntries` | api/src/main.py:44 | the crew entries whose job is "Director", in crew order; characterised by `DirectorEntriesCount` and `DirectorEntriesAppend` |
| `Fetcher.DirectorEntriesAppend` | api/src/main.py:44 | the "Director" filter distributes over concatenation, so it keeps crew order |
| `Fetcher.DirectorEntriesCount` | api/src/main.py:44 | a crew entry is kept exactly as often as it occurs when its job is "Director", and never otherwise |
| `Fetcher.FetchMovie` | api/src/main.py:34-49 | the result is `(None, [])` unless the search succeeded with a non-empty result list whose first hit has an id, the credits request succeeded and the crew is readable; otherwise the id is the first hit's and the directors are those extracted from the crew (a missing `crew` key is an empty crew); a null id always comes with no directors |
| `Keys.Key` | api/src/main.py:57-65 | the cache key `Name + str(Year)`; characterised by `KeyInjective` (four-digit years) and `KeyCollision` (other years) |
| `Keys.ParseDigitsOfDigits` | api/src/main.py:57 | the decimal rendering of a year reads back as the same number |
| `Keys.KeyInjective` | api/src/main.py:57-65 | for four-digit years, two `Name + str(Year)` keys are equal exactly when names and years are equal |
| `Keys.KeyCollision` | api/src/main.py:57-65 | without the four-digit condition two films share a key: ("A1", 999) and ("A", 1999) |
| `Cache.ToFetch` | api/src/main.py:67-68 | the user rows `df_user[~known_mask]`; characterised by `ToFetchCount`, `ToFetchMembers` and `ToFetchAppend` |
| `Cache.ToFetchCount` | api/src/main.py:65-68 | a user row is selected for lookup exactly as many times as it occurs among the user rows when its key is not cached, and never when it is |
| `Cache.ToFetchMembers` | api/src/main.py:67-68 | the rows to look up are exactly the user rows whose key is not among the cache keys |
| `Cache.ToFetchAppend` | api/src/main.py:67-68 | the selection distributes over concatenation of user rows, so it keeps user order |
| `Cache.StoredId` | api/src/main.py:86 | the stored `TMDB_ID` is null exactly when the lookup returned no id or the id 0, and otherwise equals the returned id |
| `Cache.BuildNewRows` | api/src/main.py:78-89 | the loop builds exactly one cache row per looked-up row, in order, with that row's name, year and URI, the stored id and the lookup's directors |
| `Cache.AppendCoversUsers` | api/src/main.py:67-97 | after the new rows are appended every user key is cached, so the same user rows select nothing to look up on the next run |
| `Cache.AppendKeepsFourDigitYears` | api/src/main.py:83-84 | new rows copy the user rows' years, so a cache with four-digit years keeps them |
| `Cache.MovieCache.constructor` | api/src/main.py:17-18 | a new cache has no rows |
| `Cache.MovieCache.Append` | api/src/main.py:92-97 | the old rows stay unchanged and in order, followed by the new rows |
| `Cache.FetchAll` | api/src/main.py:72-76 | as many results as submitted lookups, the i-th being the lookup of the i-th replies, as `asyncio.gather` returns them |
| `Cache.Enrich` | api/src/main.py:57-97 | the looked-up rows are the unknown-key user rows; the cache grows by exactly one row per looked-up row built from its lookup, old rows unchanged and first; it is unchanged when nothing is looked up; the key set only grows and afterwards holds every user key; four-digit years stay four-digit |
| `Join.InnerJoin` | api/src/main.py:102-104 | the inner merge on (`Name`, `Year`); characterised by `InnerJoinMembers`, `InnerJoinAppend` and `MatchesCount` |
| `Join.MatchesMembers` | api/src/main.py:102-104 | the merged rows of one user row are exactly its combinations with the cache rows of the same name and year |
| `Join.MatchesCount` | api/src/main.py:102-104 | each copy of a cache row of the user row's film yields its own merged row, so a film cached twice is merged twice |
| `Join.InnerJoinMembers` | api/src/main.py:102-104 | a merged row is exactly a user row combined with a cache row of the same name and year |
| `Join.InnerJoinAppend` | api/src/main.py:102-104 | the join distributes over concatenation of user rows, so merged rows follow user order |
| `Join.CachedKeyJoins` | api/src/main.py:65-104 | with four-digit years, a user row whose key is cached is combined with a cache row of its own film in the join |
| `Join.CollidingKeyIsLost` | api/src/main.py:65-104 | with a three-digit year a user row can count as cached yet have no row in the join |
| `Aggregation.FemaleNames` | api/src/main.py:106-118 | the names `female_director_list` collects; characterised by `FemaleNamesMembers`, `BucketSizes` and `FemaleBucketEmpty` |
| `Aggregation.FemaleRatings` | api/src/main.py:106-118 | the ratings `female_ratings` collects; characterised by `BucketSizes`, `BucketSources` and `FemaleBucketEmpty` |
| `Aggregation.OtherRatings` | api/src/main.py:106-118 | the ratings `other_ratings` collects; characterised by `BucketSizes` and `BucketSources` |
| `Aggregation.RowBuckets` | api/src/main.py:112-118 | per row, the two bucket contributions add up to the row's director count, the tally gains one name per female-bucket entry, every entry is the row's rating, and the row adds to the tally exactly when it has a woman director |
| `Aggregation.BucketSizes` | api/src/main.py:110-118 | the female and other bucket sizes sum to the number of (row, director) pairs, and the tally is as long as the female bucket |
| `Aggregation.BucketSources` | api/src/main.py:110-118 | each female-bucket entry is the rating of a merged row with a woman director; each other-bucket entry is the rating of a merged row with a director who is not a woman |
| `Aggregation.FemaleNamesMembers` | api/src/main.py:113-114 | a name is in the tally exactly when it is a woman director of some merged row |
| `Aggregation.FemaleBucketEmpty` | api/src/main.py:106-118 | the female bucket is empty exactly when no merged row has a woman director, and exactly when the tally is empty |
| `Aggregation.DirectorlessRowAddsNothing` | api/src/main.py:112 | a row without directors changes neither bucket nor the tally |
| `Aggregation.MinMaxBounds` | api/src/main.py:145-146 | the bounds `MeanBounds` uses are entries of the bucket, its smallest and its largest: every entry lies between them |
| `Aggregation.Mean` | api/src/main.py:145-146 | an empty bucket averages to 0 |
| `Aggregation.MeanBounds` | api/src/main.py:145-146 | a non-empty bucket's `sum/len` lies between its smallest and largest rating |
| `Aggregation.Leader` | api/src/main.py:123 | the scan ends on a name no other name outnumbers, and every name before it is strictly less frequent |
| `Aggregation.MostCommon` | api/src/main.py:120-124 | null exactly for an empty tally; otherwise a tallied name with its number of occurrences, no name occurs more often, and a name as frequent occurs no earlier than the winner's first occurrence |
| `Aggregation.MostWatchedExists` | api/src/main.py:120-124 | there is no most watched woman director exactly when no merged row has a woman director; otherwise the winner directed one of the merged rows |
| `Aggregation.PickOf` | api/src/main.py:137-141 | the output entry of a row: name, year, `TMDB_ID` with null as 0, rating and URI; characterised by `TopPicksMembers` |
| `Aggregation.FemaleDirected` | api/src/main.py:126-130 | `female_directed_df`; characterised by `FemaleDirectedMembers` and `FemaleDirectedAppend` |
| `Aggregation.RatedAt` | api/src/main.py:135-141 | the output entries of the rows with a given rating; characterised by `RatedAtMembers` and `RatedAtAppend` |
| `Aggregation.TopPicks` | api/src/main.py:126-141 | `best_rated_female_directed`; characterised by `TopPicksMembers` and `TopPicksEmpty` |
| `Aggregation.MaxRating` | api/src/main.py:134 | the maximum is the rating of one of the rows and no row is rated higher |
| `Aggregation.FemaleDirectedMembers` | api/src/main.py:126-130 | the female-directed rows are exactly the merged rows with at least one woman director |
| `Aggregation.RatedAtMembers` | api/src/main.py:135-141 | the selected picks are exactly the output entries of the rows with the given rating |
| `Aggregation.TopPicksMembers` | api/src/main.py:126-141 | a pick is exactly the output entry of a merged row with a woman director that no other such row outrates; a null `TMDB_ID` is output as 0 |
| `Aggregation.TopPicksEmpty` | api/src/main.py:132-133 | the top picks are empty exactly when no merged row has a woman director |
| `Aggregation.FemaleDirectedAppend` | api/src/main.py:126-130 | the female-directed filter keeps merged order |
| `Aggregation.RatedAtAppend` | api/src/main.py:135-141 | the top-pick selection keeps merged order |
| `Aggregation.TallyRow` | api/src/main.py:112-118 | the inner loop yields the row's women directors' names, one copy of the rating per woman, and one per other director |
| `Aggregation.Tally` | api/src/main.py:106-118 | the nested loop yields the tally and the two buckets of the whole merged sequence |
| `Aggregation.Analyze` | api/src/main.py:106-150 | the report holds the two bucket averages, the most common tallied woman director and the top picks of the merged rows |
| `Aggregation.WomanDirectedRow` | api/src/main.py:112-116 | a row directed by one woman adds her name and its rating once to the female side and nothing to the other bucket |
| `Aggregation.OtherDirectedRow` | api/src/main.py:117-118 | a row with one director of the other category adds its rating once to the other bucket only |
| `Aggregation.WorkedExampleLists` | api/src/main.py:110-118 | films rated 4.0 and 5.0 by Ada and 3.0 by another director give buckets [4.0, 5.0] and [3.0] and tally [Ada, Ada] |
| `Aggregation.WorkedExampleMeans` | api/src/main.py:145-146 | in that example the averages are 4.5 and 3.0 |
| `Aggregation.WorkedExampleMostWatched` | api/src/main.py:120-124 | in that example Ada is the most watched woman director with a count of 2 |
| `Aggregation.WorkedExampleTopPicks` | api/src/main.py:126-141 | in that example the only top pick is the 5.0 film, its null id output as 0 |
| `Pipeline.ToFetchEmpty` | api/src/main.py:67-70 | when every user key is cached nothing is looked up |
| `Pipeline.CachedUsersJoin` | api/src/main.py:65-104 | with four-digit years, once every user key is cached every user row is combined with a cache row of its own film |
| `Pipeline.AnalyzeLetterboxd` | api/src/main.py:51-150 | the cache grows by one row per unknown-key user row with the old rows first, each new row built from that user row and the lookup of its replies, afterwards nothing is left to look up, the report is that of the join of the user rows with the grown cache, and with four-digit years every user row takes part in that join |

## Left out

- FastAPI app and endpoint wiring, reading the upload, and loading the
  token from the environment (api/src/main.py:8-12, 20, 51-54): framework and
  I/O plumbing.
- CSV persistence: `read_csv`/`to_csv`, the `Int64` coercion and the
  file-existence checks (api/src/main.py:17-18, 60-64, 93-97, 100). The cache
  is an in-memory sequence of rows. The re-read of the cache file before the
  write, and any other process writing it in between, are not modelled.
- Upload cleaning with `pd.to_numeric(errors="coerce")` and `dropna`
  (api/src/main.py:55-56). `UserRow` always has a name and a numeric rating.
  Years are integers. A missing year would make pandas render every year as
  "1999.0" in the key, and that case is not modelled.
- JSON `dumps`/`loads` of the `Directors` column (api/src/main.py:87, 101):
  taken to round-trip, so directors are stored as values.
- The HTTP calls, their 60-second timeout, `asyncio.gather` and the global
  `Semaphore(10)` (api/src/main.py:21, 25-39, 71-76). Each lookup is a pure
  function of its two replies. A timeout, a network error or a non-JSON body
  is the reply `Failed`. The concurrency bound is not modelled.
- JSON values of unexpected type (a `null` crew list, a non-integer gender
  code, a non-integer id) are not modelled beyond "the request failed".
- Floating-point ratings and averages: ratings are exact reals and rounding
  is not modelled.
- The error log line (api/src/main.py:48).
- The unused flag `is_female_movie` (api/src/main.py:111, 116): it is
  assigned but never read, so it is not modelled.
- `Join.InnerJoin` orders merged rows by user row, then by cache row among
  one user row's matches. That is the documented order of the pandas inner
  merge; older pandas versions grouped rows with equal keys, and that order
  is not modelled.
- `Pipeline.AnalyzeLetterboxd`: the link between the cache check and the join
  is stated only for four-digit years, because with other years the
  concatenated key can collide (`Join.CollidingKeyIsLost`).
