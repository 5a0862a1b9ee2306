/**
 * The analysis endpoint without its HTTP, CSV and network plumbing: enrich
 * the cache for the user rows, join, and compute the report.
 */
module Pipeline {
  import opened Wrappers
  import opened Keys
  import opened Movies
  import opened Fetcher
  import opened Cache
  import opened Join
  import opened Aggregation

  /**
   * One analysis of the cleaned user rows. `replies[i]` are the HTTP replies
   * of the lookup of the i-th row that is not cached yet.
   */
  method AnalyzeLetterboxd(cache: MovieCache, users: seq<UserRow>, replies: seq<ApiReplies>) returns (report: Report)
    requires |replies| == |ToFetch(users, CacheKeys(cache.rows))|
    modifies cache
    ensures |cache.rows| == |old(cache.rows)| + |ToFetch(users, CacheKeys(old(cache.rows)))|
    ensures cache.rows[..|old(cache.rows)|] == old(cache.rows)
    ensures forall i :: 0 <= i < |ToFetch(users, CacheKeys(old(cache.rows)))| ==>
      RowFor(cache.rows[|old(cache.rows)| + i], ToFetch(users, CacheKeys(old(cache.rows)))[i], FetchMovie(replies[i]))
    ensures ToFetch(users, CacheKeys(cache.rows)) == []
    ensures report.femaleAvg == Mean(FemaleRatings(InnerJoin(users, cache.rows)))
    ensures report.otherAvg == Mean(OtherRatings(InnerJoin(users, cache.rows)))
    ensures report.mostWatched == MostCommon(FemaleNames(InnerJoin(users, cache.rows)))
    ensures report.topPicks == TopPicks(InnerJoin(users, cache.rows))
    ensures FourDigitYears(users, old(cache.rows)) ==> EveryUserJoined(users, cache.rows)
  {
    var fetched := Enrich(cache, users, replies);
    ToFetchEmpty(users, CacheKeys(cache.rows));
    if FourDigitYears(users, cache.rows) {
      CachedUsersJoin(users, cache.rows);
    }
    var merged := InnerJoin(users, cache.rows);
    report := Analyze(merged);
  }

  /** Once every user key is cached, nothing is left to fetch. */
  lemma ToFetchEmpty(users: seq<UserRow>, known: set<string>)
    requires forall u :: u in users ==> UserKey(u) in known
    ensures ToFetch(users, known) == []
  {
    if ToFetch(users, known) != [] {
      ToFetchMembers(users, known, ToFetch(users, known)[0]);
    }
  }

  /** Every user row is merged with a cache row of its own film. */
  ghost predicate EveryUserJoined(users: seq<UserRow>, rows: seq<CacheRow>)
  {
    forall u :: u in users ==> exists c :: c in rows && SameFilm(u, c) && Merge(u, c) in InnerJoin(users, rows)
  }

  /**
   * With four-digit years, a user row whose key is cached takes part in the
   * join: the key check and the join agree.
   */
  lemma CachedUsersJoin(users: seq<UserRow>, rows: seq<CacheRow>)
    requires FourDigitYears(users, rows)
    requires forall u :: u in users ==> UserKey(u) in CacheKeys(rows)
    ensures EveryUserJoined(users, rows)
  {
    forall u | u in users
      ensures exists c :: c in rows && SameFilm(u, c) && Merge(u, c) in InnerJoin(users, rows)
    {
      CachedKeyJoins(u, users, rows);
    }
  }
}
