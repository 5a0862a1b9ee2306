/**
 * The inner merge of the user rows with the cache rows on (`Name`, `Year`):
 * user order first, then cache order among the rows a user row matches.
 */
module Join {
  import opened Wrappers
  import opened Keys
  import opened Movies

  /** A user row enriched with a cache row's id and directors. */
  datatype MergedRow = MergedRow(name: string, year: int, rating: real, uri: string, tmdbId: Option<int>, directors: seq<Director>)

  predicate SameFilm(u: UserRow, c: CacheRow)
  {
    u.name == c.name && u.year == c.year
  }

  function Merge(u: UserRow, c: CacheRow): MergedRow
  {
    MergedRow(u.name, u.year, u.rating, u.uri, c.tmdbId, c.directors)
  }

  /** The merged rows of one user row: one per matching cache row, in cache order. */
  function Matches(u: UserRow, cache: seq<CacheRow>): seq<MergedRow>
  {
    if cache == [] then []
    else (if SameFilm(u, cache[0]) then [Merge(u, cache[0])] else []) + Matches(u, cache[1..])
  }

  /** The inner join of `users` with `cache` on name and year. */
  function InnerJoin(users: seq<UserRow>, cache: seq<CacheRow>): seq<MergedRow>
  {
    if users == [] then [] else Matches(users[0], cache) + InnerJoin(users[1..], cache)
  }

  lemma {:induction false} MatchesMembers(u: UserRow, cache: seq<CacheRow>, m: MergedRow)
    ensures m in Matches(u, cache) <==> exists c :: c in cache && SameFilm(u, c) && m == Merge(u, c)
  {
    if cache != [] {
      MatchesMembers(u, cache[1..], m);
      assert forall c :: c in cache <==> c == cache[0] || c in cache[1..];
    }
  }

  /**
   * Every copy of a matching cache row yields its own merged row: a film
   * cached twice is merged twice with the same user row.
   */
  lemma {:induction false} MatchesCount(u: UserRow, cache: seq<CacheRow>, c: CacheRow)
    requires SameFilm(u, c)
    ensures multiset(Matches(u, cache))[Merge(u, c)] >= multiset(cache)[c]
  {
    if cache != [] {
      MatchesCount(u, cache[1..], c);
      assert cache == [cache[0]] + cache[1..];
    }
  }

  /**
   * A merged row is exactly a user row combined with a cache row of the same
   * name and year.
   */
  lemma {:induction false} InnerJoinMembers(users: seq<UserRow>, cache: seq<CacheRow>, m: MergedRow)
    ensures m in InnerJoin(users, cache) <==>
      exists u, c :: u in users && c in cache && SameFilm(u, c) && m == Merge(u, c)
  {
    if users != [] {
      MatchesMembers(users[0], cache, m);
      InnerJoinMembers(users[1..], cache, m);
      assert forall u :: u in users <==> u == users[0] || u in users[1..];
    }
  }

  /** The join keeps user order: it distributes over concatenation of user rows. */
  lemma {:induction false} InnerJoinAppend(a: seq<UserRow>, b: seq<UserRow>, cache: seq<CacheRow>)
    ensures InnerJoin(a + b, cache) == InnerJoin(a, cache) + InnerJoin(b, cache)
  {
    if a == [] {
      assert a + b == b;
    } else {
      var head := Matches(a[0], cache);
      assert (a + b)[0] == a[0];
      assert (a + b)[1..] == a[1..] + b;
      InnerJoinAppend(a[1..], b, cache);
      assert InnerJoin(a + b, cache) == head + (InnerJoin(a[1..], cache) + InnerJoin(b, cache));
      assert InnerJoin(a, cache) == head + InnerJoin(a[1..], cache);
    }
  }

  /**
   * When every cached key belongs to its own film (four-digit years), a user
   * row whose key is cached survives the join.
   */
  lemma CachedKeyJoins(u: UserRow, users: seq<UserRow>, cache: seq<CacheRow>)
    requires u in users && FourDigitYear(u.year)
    requires forall c :: c in cache ==> FourDigitYear(c.year)
    requires exists c :: c in cache && CacheKey(c) == UserKey(u)
    ensures exists c :: c in cache && SameFilm(u, c) && Merge(u, c) in InnerJoin(users, cache)
  {
    var c :| c in cache && CacheKey(c) == UserKey(u);
    KeyInjective(u.name, u.year, c.name, c.year);
    InnerJoinMembers(users, cache, Merge(u, c));
  }

  /**
   * The same user row can be lost when years have other lengths: the cache
   * holds the key of "A1" (999) only through the film "A" (1999), so the
   * partition treats "A1" as cached while the join finds no row for it.
   */
  lemma CollidingKeyIsLost()
    ensures var u := UserRow("A1", 999, 3.0, "");
            var c := CacheRow("A", 1999, "", None, []);
            CacheKey(c) == UserKey(u) && InnerJoin([u], [c]) == []
  {
    var u := UserRow("A1", 999, 3.0, "");
    var c := CacheRow("A", 1999, "", None, []);
    KeyCollision();
    assert !SameFilm(u, c);
    assert Matches(u, [c]) == [] + Matches(u, []);
    assert InnerJoin([u], [c]) == Matches(u, [c]) + InnerJoin([], [c]);
  }
}
