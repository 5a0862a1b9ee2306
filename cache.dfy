/**
 * The movie cache and its enrichment step: the user rows whose key is not
 * cached are looked up, one new cache row is built per looked-up row, and the
 * new rows are appended after the old ones.
 */
module Cache {
  import opened Wrappers
  import opened Keys
  import opened Movies
  import opened Fetcher

  /** The keys of the cached rows. */
  function CacheKeys(rows: seq<CacheRow>): set<string>
  {
    set c | c in rows :: CacheKey(c)
  }

  /**
   * The user rows whose key is not among `known`, in user order. Repeated
   * user rows are all kept: nothing is deduplicated.
   */
  function ToFetch(users: seq<UserRow>, known: set<string>): seq<UserRow>
  {
    if users == [] then [] else IfUnknown(users[0], known) + ToFetch(users[1..], known)
  }

  /** The row itself when its key is unknown, nothing otherwise. */
  function IfUnknown(u: UserRow, known: set<string>): seq<UserRow>
  {
    if UserKey(u) in known then [] else [u]
  }

  /**
   * A row is fetched exactly as often as it occurs among the user rows when
   * its key is unknown, and never when its key is known.
   */
  lemma {:induction false} ToFetchCount(users: seq<UserRow>, known: set<string>, u: UserRow)
    ensures multiset(ToFetch(users, known))[u] == if UserKey(u) in known then 0 else multiset(users)[u]
  {
    if users != [] {
      assert users == [users[0]] + users[1..];
      ToFetchCount(users[1..], known, u);
    }
  }

  /** The rows to fetch are exactly the user rows with an unknown key. */
  lemma ToFetchMembers(users: seq<UserRow>, known: set<string>, u: UserRow)
    ensures u in ToFetch(users, known) <==> u in users && UserKey(u) !in known
  {
    ToFetchCount(users, known, u);
  }

  /** The partition keeps user order: it distributes over concatenation. */
  lemma {:induction false} ToFetchAppend(a: seq<UserRow>, b: seq<UserRow>, known: set<string>)
    ensures ToFetch(a + b, known) == ToFetch(a, known) + ToFetch(b, known)
  {
    if a == [] {
      assert a + b == b;
    } else {
      var head := IfUnknown(a[0], known);
      assert (a + b)[0] == a[0];
      assert (a + b)[1..] == a[1..] + b;
      ToFetchAppend(a[1..], b, known);
      assert ToFetch(a + b, known) == head + (ToFetch(a[1..], known) + ToFetch(b, known));
      assert ToFetch(a, known) == head + ToFetch(a[1..], known);
    }
  }

  /** `TMDB_ID` as stored: `int(m_id) if m_id else None`, so 0 is stored as null. */
  function StoredId(id: Option<int>): (s: Option<int>)
    ensures s.None? <==> id.None? || id.value == 0
    ensures s.Some? ==> s == id
  {
    if id.Some? && id.value != 0 then id else None
  }

  /** `c` is the cache row built for user row `u` from lookup result `f`. */
  predicate RowFor(c: CacheRow, u: UserRow, f: FetchResult)
  {
    && c.name == u.name && c.year == u.year && c.uri == u.uri
    && c.tmdbId == StoredId(f.movieId)
    && c.directors == f.directors
  }

  /** The loop that builds one new cache row per looked-up user row. */
  method BuildNewRows(toFetch: seq<UserRow>, results: seq<FetchResult>) returns (rows: seq<CacheRow>)
    requires |results| == |toFetch|
    ensures |rows| == |toFetch|
    ensures forall i :: 0 <= i < |rows| ==> RowFor(rows[i], toFetch[i], results[i])
  {
    rows := [];
    var i := 0;
    while i < |toFetch|
      invariant 0 <= i <= |toFetch|
      invariant |rows| == i
      invariant forall j :: 0 <= j < i ==> RowFor(rows[j], toFetch[j], results[j])
    {
      var u, f := toFetch[i], results[i];
      rows := rows + [CacheRow(u.name, u.year, u.uri, StoredId(f.movieId), f.directors)];
      i := i + 1;
    }
  }

  /**
   * After the new rows are appended, every user key is cached: a second run
   * over the same user rows fetches nothing.
   */
  lemma AppendCoversUsers(users: seq<UserRow>, before: seq<CacheRow>, newRows: seq<CacheRow>, results: seq<FetchResult>)
    requires |newRows| == |ToFetch(users, CacheKeys(before))| == |results|
    requires forall i :: 0 <= i < |newRows| ==> RowFor(newRows[i], ToFetch(users, CacheKeys(before))[i], results[i])
    ensures forall u :: u in users ==> UserKey(u) in CacheKeys(before + newRows)
    ensures ToFetch(users, CacheKeys(before + newRows)) == []
  {
    var toFetch := ToFetch(users, CacheKeys(before));
    var all := before + newRows;
    forall u | u in users
      ensures UserKey(u) in CacheKeys(all)
    {
      if UserKey(u) !in CacheKeys(before) {
        ToFetchMembers(users, CacheKeys(before), u);
        var i :| 0 <= i < |toFetch| && toFetch[i] == u;
        assert all[|before| + i] == newRows[i];
        assert CacheKey(newRows[i]) == UserKey(u);
      } else {
        var c :| c in before && CacheKey(c) == UserKey(u);
        assert c in all;
      }
    }
    if ToFetch(users, CacheKeys(all)) != [] {
      var u := ToFetch(users, CacheKeys(all))[0];
      ToFetchMembers(users, CacheKeys(all), u);
      assert false;
    }
  }

  /** New rows copy the years of user rows, so four-digit years stay four-digit. */
  lemma AppendKeepsFourDigitYears(users: seq<UserRow>, before: seq<CacheRow>, newRows: seq<CacheRow>, results: seq<FetchResult>)
    requires |newRows| == |ToFetch(users, CacheKeys(before))| == |results|
    requires forall i :: 0 <= i < |newRows| ==> RowFor(newRows[i], ToFetch(users, CacheKeys(before))[i], results[i])
    ensures FourDigitYears(users, before) ==> FourDigitYears(users, before + newRows)
  {
    if FourDigitYears(users, before) {
      var toFetch := ToFetch(users, CacheKeys(before));
      forall c | c in before + newRows
        ensures FourDigitYear(c.year)
      {
        if c !in before {
          var i :| 0 <= i < |newRows| && newRows[i] == c;
          ToFetchMembers(users, CacheKeys(before), toFetch[i]);
        }
      }
    }
  }

  /** The persistent cache: its rows, oldest first. */
  class MovieCache {
    var rows: seq<CacheRow>

    /** A fresh, empty cache (the file created with only a header). */
    constructor ()
      ensures rows == []
    {
      rows := [];
    }

    /** Writes `newRows` after the existing rows, which stay as they were. */
    method Append(newRows: seq<CacheRow>)
      modifies this
      ensures rows == old(rows) + newRows
    {
      rows := rows + newRows;
    }
  }

  /** The lookup results for a batch of replies, in submission order. */
  function FetchAll(replies: seq<ApiReplies>): (results: seq<FetchResult>)
    ensures |results| == |replies|
    ensures forall i :: 0 <= i < |replies| ==> results[i] == FetchMovie(replies[i])
  {
    seq(|replies|, i requires 0 <= i < |replies| => FetchMovie(replies[i]))
  }

  /**
   * The enrichment step of the analysis. `replies[i]` are the HTTP replies of
   * the lookup of the i-th row to fetch. Returns the rows that were fetched.
   */
  method Enrich(cache: MovieCache, users: seq<UserRow>, replies: seq<ApiReplies>) returns (toFetch: seq<UserRow>)
    requires |replies| == |ToFetch(users, CacheKeys(cache.rows))|
    modifies cache
    ensures toFetch == ToFetch(users, CacheKeys(old(cache.rows)))
    ensures |cache.rows| == |old(cache.rows)| + |toFetch|
    ensures cache.rows[..|old(cache.rows)|] == old(cache.rows)
    ensures forall i :: 0 <= i < |toFetch| ==>
      RowFor(cache.rows[|old(cache.rows)| + i], toFetch[i], FetchMovie(replies[i]))
    ensures toFetch == [] ==> cache.rows == old(cache.rows)
    ensures CacheKeys(old(cache.rows)) <= CacheKeys(cache.rows)
    ensures forall u :: u in users ==> UserKey(u) in CacheKeys(cache.rows)
    ensures FourDigitYears(users, old(cache.rows)) ==> FourDigitYears(users, cache.rows)
  {
    toFetch := ToFetch(users, CacheKeys(cache.rows));
    if toFetch != [] {
      var results := FetchAll(replies);
      var newRows := BuildNewRows(toFetch, results);
      ghost var before := cache.rows;
      cache.Append(newRows);
      assert cache.rows[..|before|] == before;
      AppendCoversUsers(users, before, newRows, results);
      AppendKeepsFourDigitYears(users, before, newRows, results);
    } else {
      AppendCoversUsers(users, cache.rows, [], []);
      assert cache.rows + [] == cache.rows;
    }
  }
}
