/**
 * The statistics over the merged rows: the rating buckets and the tally of
 * women directors built by a nested loop, the most watched woman director,
 * the averages and the top-rated films directed by women.
 */
module Aggregation {
  import opened Wrappers
  import opened Movies
  import opened Join

  // ---------------------------------------------------------------------
  // What the nested loop over (row, director) pairs accumulates
  // ---------------------------------------------------------------------

  /** The names of the women among `ds`, in order. */
  function FemaleNamesOf(ds: seq<Director>): seq<string>
  {
    if ds == [] then []
    else FemaleNamesOf(ds[..|ds| - 1]) + (if ds[|ds| - 1].gender == Female then [ds[|ds| - 1].name] else [])
  }

  /** `rating` once per woman among `ds`. */
  function FemaleRatingsOf(ds: seq<Director>, rating: real): seq<real>
  {
    if ds == [] then []
    else FemaleRatingsOf(ds[..|ds| - 1], rating) + (if ds[|ds| - 1].gender == Female then [rating] else [])
  }

  /** `rating` once per director among `ds` who is not a woman. */
  function OtherRatingsOf(ds: seq<Director>, rating: real): seq<real>
  {
    if ds == [] then []
    else OtherRatingsOf(ds[..|ds| - 1], rating) + (if ds[|ds| - 1].gender == Female then [] else [rating])
  }

  function Last<T>(s: seq<T>): T
    requires s != []
  {
    s[|s| - 1]
  }

  /** `female_director_list` after the loop over `rows`. */
  function FemaleNames(rows: seq<MergedRow>): seq<string>
  {
    if rows == [] then [] else FemaleNames(rows[..|rows| - 1]) + FemaleNamesOf(Last(rows).directors)
  }

  /** `female_ratings` after the loop over `rows`. */
  function FemaleRatings(rows: seq<MergedRow>): seq<real>
  {
    if rows == [] then [] else FemaleRatings(rows[..|rows| - 1]) + FemaleRatingsOf(Last(rows).directors, Last(rows).rating)
  }

  /** `other_ratings` after the loop over `rows`. */
  function OtherRatings(rows: seq<MergedRow>): seq<real>
  {
    if rows == [] then [] else OtherRatings(rows[..|rows| - 1]) + OtherRatingsOf(Last(rows).directors, Last(rows).rating)
  }

  /** The number of (row, director) pairs. */
  function DirectorCount(rows: seq<MergedRow>): nat
  {
    if rows == [] then 0 else DirectorCount(rows[..|rows| - 1]) + |Last(rows).directors|
  }

  /** One more director extends each per-row list by that director's contribution. */
  lemma DirectorStep(ds: seq<Director>, j: nat, rating: real)
    requires j < |ds|
    ensures FemaleNamesOf(ds[..j + 1]) == FemaleNamesOf(ds[..j]) + (if ds[j].gender == Female then [ds[j].name] else [])
    ensures FemaleRatingsOf(ds[..j + 1], rating) == FemaleRatingsOf(ds[..j], rating) + (if ds[j].gender == Female then [rating] else [])
    ensures OtherRatingsOf(ds[..j + 1], rating) == OtherRatingsOf(ds[..j], rating) + (if ds[j].gender == Female then [] else [rating])
  {
    assert ds[..j + 1][..j] == ds[..j];
  }

  /** One more row extends each list by that row's contribution. */
  lemma RowStep(rows: seq<MergedRow>, i: nat)
    requires i < |rows|
    ensures FemaleNames(rows[..i + 1]) == FemaleNames(rows[..i]) + FemaleNamesOf(rows[i].directors)
    ensures FemaleRatings(rows[..i + 1]) == FemaleRatings(rows[..i]) + FemaleRatingsOf(rows[i].directors, rows[i].rating)
    ensures OtherRatings(rows[..i + 1]) == OtherRatings(rows[..i]) + OtherRatingsOf(rows[i].directors, rows[i].rating)
  {
    assert rows[..i + 1][..i] == rows[..i];
  }

  /** A film with at least one woman among its directors. */
  predicate HasFemaleDirector(ds: seq<Director>)
  {
    exists i :: 0 <= i < |ds| && ds[i].gender == Female
  }

  /** A film with at least one director who is not a woman. */
  predicate HasOtherDirector(ds: seq<Director>)
  {
    exists i :: 0 <= i < |ds| && ds[i].gender != Female
  }

  /** Per row: every director lands in exactly one bucket, and each woman is tallied. */
  lemma {:induction false} RowBuckets(ds: seq<Director>, rating: real)
    ensures |FemaleRatingsOf(ds, rating)| + |OtherRatingsOf(ds, rating)| == |ds|
    ensures |FemaleNamesOf(ds)| == |FemaleRatingsOf(ds, rating)|
    ensures forall x :: x in FemaleRatingsOf(ds, rating) ==> x == rating && HasFemaleDirector(ds)
    ensures forall x :: x in OtherRatingsOf(ds, rating) ==> x == rating && HasOtherDirector(ds)
    ensures FemaleNamesOf(ds) == [] <==> !HasFemaleDirector(ds)
  {
    if ds != [] {
      var init := ds[..|ds| - 1];
      RowBuckets(init, rating);
      assert forall i :: 0 <= i < |init| ==> init[i] == ds[i];
      if HasFemaleDirector(ds) && Last(ds).gender != Female {
        var i :| 0 <= i < |ds| && ds[i].gender == Female;
        assert init[i].gender == Female;
      }
    }
  }

  /**
   * Every (row, director) pair adds the row's rating to exactly one bucket, so
   * the two bucket sizes add up to the number of pairs, and the tally has one
   * name per entry of the female bucket.
   */
  lemma {:induction false} BucketSizes(rows: seq<MergedRow>)
    ensures |FemaleRatings(rows)| + |OtherRatings(rows)| == DirectorCount(rows)
    ensures |FemaleNames(rows)| == |FemaleRatings(rows)|
  {
    if rows != [] {
      BucketSizes(rows[..|rows| - 1]);
      RowBuckets(Last(rows).directors, Last(rows).rating);
    }
  }

  /**
   * The female bucket holds only ratings of films with a woman director; the
   * other bucket holds only ratings of films with a director who is not one.
   */
  lemma {:induction false} BucketSources(rows: seq<MergedRow>)
    ensures forall x :: x in FemaleRatings(rows) ==>
      exists r :: r in rows && HasFemaleDirector(r.directors) && r.rating == x
    ensures forall x :: x in OtherRatings(rows) ==>
      exists r :: r in rows && HasOtherDirector(r.directors) && r.rating == x
  {
    if rows != [] {
      var init, r := rows[..|rows| - 1], Last(rows);
      BucketSources(init);
      RowBuckets(r.directors, r.rating);
      assert forall q :: q in init ==> q in rows;
      assert r in rows;
    }
  }

  /** A name is tallied exactly when it is a woman director of some merged row. */
  lemma {:induction false} FemaleNamesMembers(rows: seq<MergedRow>, x: string)
    ensures x in FemaleNames(rows) <==> exists r :: r in rows && Director(x, Female) in r.directors
  {
    if rows != [] {
      var init, r := rows[..|rows| - 1], Last(rows);
      FemaleNamesMembers(init, x);
      FemaleNamesOfMembers(r.directors, x);
      assert forall q :: q in rows <==> q in init || q == r;
    }
  }

  lemma {:induction false} FemaleNamesOfMembers(ds: seq<Director>, x: string)
    ensures x in FemaleNamesOf(ds) <==> Director(x, Female) in ds
  {
    if ds != [] {
      FemaleNamesOfMembers(ds[..|ds| - 1], x);
      assert ds == ds[..|ds| - 1] + [Last(ds)];
    }
  }

  /** The female bucket is empty exactly when no merged row has a woman director. */
  lemma {:induction false} FemaleBucketEmpty(rows: seq<MergedRow>)
    ensures FemaleRatings(rows) == [] <==> forall r :: r in rows ==> !HasFemaleDirector(r.directors)
    ensures FemaleNames(rows) == [] <==> FemaleRatings(rows) == []
  {
    if rows != [] {
      var init, r := rows[..|rows| - 1], Last(rows);
      FemaleBucketEmpty(init);
      RowBuckets(r.directors, r.rating);
      BucketSizes(rows);
      assert forall q :: q in rows <==> q in init || q == r;
    }
  }

  /** A row without directors leaves both buckets and the tally as they were. */
  lemma DirectorlessRowAddsNothing(rows: seq<MergedRow>, r: MergedRow)
    requires r.directors == []
    ensures FemaleRatings(rows + [r]) == FemaleRatings(rows)
    ensures OtherRatings(rows + [r]) == OtherRatings(rows)
    ensures FemaleNames(rows + [r]) == FemaleNames(rows)
  {
    assert (rows + [r])[..|rows|] == rows;
  }

  // ---------------------------------------------------------------------
  // Averages
  // ---------------------------------------------------------------------

  function Sum(b: seq<real>): real
  {
    if b == [] then 0.0 else Sum(b[..|b| - 1]) + Last(b)
  }

  /** The smallest rating of a non-empty bucket (see `MinMaxBounds`). */
  function Min(b: seq<real>): real
    requires b != []
  {
    if |b| == 1 then b[0] else var m := Min(b[..|b| - 1]); if Last(b) < m then Last(b) else m
  }

  /** The largest rating of a non-empty bucket (see `MinMaxBounds`). */
  function Max(b: seq<real>): real
    requires b != []
  {
    if |b| == 1 then b[0] else var m := Max(b[..|b| - 1]); if Last(b) > m then Last(b) else m
  }

  /** `Min` and `Max` are entries of the bucket, and every entry lies between them. */
  lemma {:induction false} MinMaxBounds(b: seq<real>)
    requires b != []
    ensures Min(b) in b && Max(b) in b
    ensures forall x :: x in b ==> Min(b) <= x <= Max(b)
  {
    if |b| > 1 {
      var init := b[..|b| - 1];
      MinMaxBounds(init);
      assert forall x :: x in b ==> x in init || x == Last(b);
    }
  }

  /** The average of a bucket: `sum/len`, or 0 for an empty bucket. */
  function Mean(b: seq<real>): (m: real)
    ensures b == [] ==> m == 0.0
  {
    if b == [] then 0.0 else Sum(b) / (|b| as real)
  }

  lemma ScaleMonotone(n: real, x: real, y: real)
    requires 0.0 <= n && x <= y
    ensures n * x <= n * y
  {
    assert n * y - n * x == n * (y - x);
  }

  lemma {:induction false} SumAtLeast(b: seq<real>)
    requires b != []
    ensures (|b| as real) * Min(b) <= Sum(b)
  {
    if |b| == 1 {
      assert b[..0] == [];
    } else {
      var init, x := b[..|b| - 1], Last(b);
      var n := |init| as real;
      var lo, initLo := Min(b), Min(init);
      SumAtLeast(init);
      assert Sum(b) == Sum(init) + x;
      assert lo == if x < initLo then x else initLo;
      ScaleMonotone(n, lo, initLo);
      assert |b| as real == n + 1.0;
      assert (n + 1.0) * lo == n * lo + lo;
    }
  }

  lemma {:induction false} SumAtMost(b: seq<real>)
    requires b != []
    ensures Sum(b) <= (|b| as real) * Max(b)
  {
    if |b| == 1 {
      assert b[..0] == [];
    } else {
      var init, x := b[..|b| - 1], Last(b);
      var n := |init| as real;
      var hi, initHi := Max(b), Max(init);
      SumAtMost(init);
      assert Sum(b) == Sum(init) + x;
      assert hi == if x > initHi then x else initHi;
      ScaleMonotone(n, initHi, hi);
      assert |b| as real == n + 1.0;
      assert (n + 1.0) * hi == n * hi + hi;
    }
  }

  lemma NonNegativeFactor(x: real, n: real)
    requires n > 0.0 && x * n >= 0.0
    ensures x >= 0.0
  {
  }

  /** Dividing a total bounded by n*lo and n*hi by n gives a value between lo and hi. */
  lemma QuotientBounds(total: real, n: real, lo: real, hi: real)
    requires n > 0.0 && n * lo <= total <= n * hi
    ensures lo <= total / n <= hi
  {
    var q := total / n;
    assert q * n == total;
    assert (q - lo) * n == total - n * lo;
    assert (hi - q) * n == n * hi - total;
    NonNegativeFactor(q - lo, n);
    NonNegativeFactor(hi - q, n);
  }

  /** A non-empty bucket's average lies between its smallest and largest rating. */
  lemma MeanBounds(b: seq<real>)
    requires b != []
    ensures Min(b) <= Mean(b) <= Max(b)
  {
    SumAtLeast(b);
    SumAtMost(b);
    QuotientBounds(Sum(b), |b| as real, Min(b), Max(b));
  }

  // ---------------------------------------------------------------------
  // Most watched woman director: Counter(names).most_common(1)
  // ---------------------------------------------------------------------

  datatype DirectorTally = DirectorTally(name: string, watchCount: nat)

  function Occurrences(names: seq<string>, x: string): nat
  {
    multiset(names)[x]
  }

  /**
   * Scans `names[i..]` for a strictly more frequent name than `names[best]`;
   * on a tie the earlier name stays the leader.
   */
  function Leader(names: seq<string>, i: nat, best: nat): (b: nat)
    requires best < i <= |names|
    requires forall j :: 0 <= j < best ==> Occurrences(names, names[j]) < Occurrences(names, names[best])
    requires forall j :: 0 <= j < i ==> Occurrences(names, names[j]) <= Occurrences(names, names[best])
    ensures b < |names|
    ensures forall j :: 0 <= j < b ==> Occurrences(names, names[j]) < Occurrences(names, names[b])
    ensures forall j :: 0 <= j < |names| ==> Occurrences(names, names[j]) <= Occurrences(names, names[b])
    decreases |names| - i
  {
    if i == |names| then best
    else if Occurrences(names, names[i]) > Occurrences(names, names[best]) then Leader(names, i + 1, i)
    else Leader(names, i + 1, best)
  }

  /**
   * The most frequent name with its count, None for an empty tally. No name
   * is more frequent, and a name as frequent as the winner does not occur
   * before the winner's first occurrence.
   */
  function MostCommon(names: seq<string>): (r: Option<DirectorTally>)
    ensures r.None? <==> names == []
    ensures r.Some? ==> r.value.name in names && r.value.watchCount == Occurrences(names, r.value.name)
    ensures r.Some? ==> forall j :: 0 <= j < |names| ==> Occurrences(names, names[j]) <= r.value.watchCount
    ensures r.Some? ==> forall j :: 0 <= j < |names| && Occurrences(names, names[j]) == r.value.watchCount ==>
      r.value.name in names[..j + 1]
  {
    if names == [] then None
    else
      var b := Leader(names, 1, 0);
      var winner := DirectorTally(names[b], Occurrences(names, names[b]));
      assert forall j :: 0 <= j < |names| && Occurrences(names, names[j]) == winner.watchCount ==>
        names[..j + 1][b] == winner.name;
      Some(winner)
  }

  /**
   * There is no most watched woman director exactly when no merged row has a
   * woman director; otherwise the winner is one of those directors.
   */
  lemma MostWatchedExists(rows: seq<MergedRow>)
    ensures MostCommon(FemaleNames(rows)).None? <==> forall r :: r in rows ==> !HasFemaleDirector(r.directors)
    ensures MostCommon(FemaleNames(rows)).Some? ==>
      exists r :: r in rows && Director(MostCommon(FemaleNames(rows)).value.name, Female) in r.directors
  {
    FemaleBucketEmpty(rows);
    var t := MostCommon(FemaleNames(rows));
    if t.Some? {
      FemaleNamesMembers(rows, t.value.name);
    }
  }

  // ---------------------------------------------------------------------
  // Top picks among the films directed by women
  // ---------------------------------------------------------------------

  /** One entry of `best_rated_female_directed`. */
  datatype Pick = Pick(name: string, year: int, tmdbId: int, rating: real, uri: string)

  /** The output entry of a row: a null `TMDB_ID` is rendered as 0. */
  function PickOf(r: MergedRow): Pick
  {
    Pick(r.name, r.year, r.tmdbId.GetOr(0), r.rating, r.uri)
  }

  /** The rows with a woman among their directors, in order. */
  function FemaleDirected(rows: seq<MergedRow>): seq<MergedRow>
  {
    if rows == [] then []
    else (if HasFemaleDirector(rows[0].directors) then [rows[0]] else []) + FemaleDirected(rows[1..])
  }

  /** The highest rating among `rows`. */
  function MaxRating(rows: seq<MergedRow>): (m: real)
    requires rows != []
    ensures forall r :: r in rows ==> r.rating <= m
    ensures exists r :: r in rows && r.rating == m
  {
    if |rows| == 1 then rows[0].rating
    else
      var m := MaxRating(rows[1..]);
      assert forall r :: r in rows ==> r == rows[0] || r in rows[1..];
      if rows[0].rating > m then rows[0].rating else m
  }

  /** The output entries of the rows rated `m`, in order. */
  function RatedAt(rows: seq<MergedRow>, m: real): seq<Pick>
  {
    if rows == [] then []
    else (if rows[0].rating == m then [PickOf(rows[0])] else []) + RatedAt(rows[1..], m)
  }

  /** `best_rated_female_directed`. */
  function TopPicks(rows: seq<MergedRow>): seq<Pick>
  {
    var fd := FemaleDirected(rows);
    if fd == [] then [] else RatedAt(fd, MaxRating(fd))
  }

  lemma {:induction false} FemaleDirectedMembers(rows: seq<MergedRow>, r: MergedRow)
    ensures r in FemaleDirected(rows) <==> r in rows && HasFemaleDirector(r.directors)
  {
    if rows != [] {
      FemaleDirectedMembers(rows[1..], r);
      assert forall q :: q in rows <==> q == rows[0] || q in rows[1..];
    }
  }

  lemma {:induction false} RatedAtMembers(rows: seq<MergedRow>, m: real, p: Pick)
    ensures p in RatedAt(rows, m) <==> exists r :: r in rows && r.rating == m && p == PickOf(r)
  {
    if rows != [] {
      RatedAtMembers(rows[1..], m, p);
      assert forall q :: q in rows <==> q == rows[0] || q in rows[1..];
    }
  }

  /** A row rated at least as high as every film directed by a woman. */
  ghost predicate TopRated(rows: seq<MergedRow>, r: MergedRow)
  {
    forall q :: q in rows && HasFemaleDirector(q.directors) ==> q.rating <= r.rating
  }

  /**
   * The top picks are exactly the output entries of the films directed by a
   * woman whose rating no other such film exceeds.
   */
  lemma TopPicksMembers(rows: seq<MergedRow>, p: Pick)
    ensures p in TopPicks(rows) <==>
      exists r :: r in rows && HasFemaleDirector(r.directors) && TopRated(rows, r) && p == PickOf(r)
  {
    var fd := FemaleDirected(rows);
    forall q ensures q in fd <==> q in rows && HasFemaleDirector(q.directors) {
      FemaleDirectedMembers(rows, q);
    }
    if fd != [] {
      var m := MaxRating(fd);
      RatedAtMembers(fd, m, p);
      if p in TopPicks(rows) {
        var r :| r in fd && r.rating == m && p == PickOf(r);
        assert TopRated(rows, r);
      }
      if exists r :: r in rows && HasFemaleDirector(r.directors) && TopRated(rows, r) && p == PickOf(r) {
        var r :| r in rows && HasFemaleDirector(r.directors) && TopRated(rows, r) && p == PickOf(r);
        var r0 :| r0 in fd && r0.rating == m;
        assert r.rating == m;
      }
    }
  }

  /** The top picks are empty exactly when no merged row has a woman director. */
  lemma TopPicksEmpty(rows: seq<MergedRow>)
    ensures TopPicks(rows) == [] <==> forall r :: r in rows ==> !HasFemaleDirector(r.directors)
  {
    var fd := FemaleDirected(rows);
    if fd != [] {
      var m := MaxRating(fd);
      var r :| r in fd && r.rating == m;
      RatedAtMembers(fd, m, PickOf(r));
      FemaleDirectedMembers(rows, r);
    } else if exists r :: r in rows && HasFemaleDirector(r.directors) {
      var r :| r in rows && HasFemaleDirector(r.directors);
      FemaleDirectedMembers(rows, r);
    }
  }

  /** Picks keep merged order: selection distributes over concatenation. */
  lemma {:induction false} FemaleDirectedAppend(a: seq<MergedRow>, b: seq<MergedRow>)
    ensures FemaleDirected(a + b) == FemaleDirected(a) + FemaleDirected(b)
  {
    if a == [] {
      assert a + b == b;
    } else {
      var head := if HasFemaleDirector(a[0].directors) then [a[0]] else [];
      assert (a + b)[0] == a[0];
      assert (a + b)[1..] == a[1..] + b;
      FemaleDirectedAppend(a[1..], b);
      assert FemaleDirected(a + b) == head + (FemaleDirected(a[1..]) + FemaleDirected(b));
      assert FemaleDirected(a) == head + FemaleDirected(a[1..]);
    }
  }

  lemma {:induction false} RatedAtAppend(a: seq<MergedRow>, b: seq<MergedRow>, m: real)
    ensures RatedAt(a + b, m) == RatedAt(a, m) + RatedAt(b, m)
  {
    if a == [] {
      assert a + b == b;
    } else {
      var head := if a[0].rating == m then [PickOf(a[0])] else [];
      assert (a + b)[0] == a[0];
      assert (a + b)[1..] == a[1..] + b;
      RatedAtAppend(a[1..], b, m);
      assert RatedAt(a + b, m) == head + (RatedAt(a[1..], m) + RatedAt(b, m));
      assert RatedAt(a, m) == head + RatedAt(a[1..], m);
    }
  }

  // ---------------------------------------------------------------------
  // The report
  // ---------------------------------------------------------------------

  datatype Report = Report(femaleAvg: real, otherAvg: real, mostWatched: Option<DirectorTally>, topPicks: seq<Pick>)

  /**
   * The inner loop over one row's directors: a woman director's name goes to
   * the tally and the row's rating to the female bucket, every other
   * director's row rating to the other bucket.
   */
  method TallyRow(ds: seq<Director>, rating: real) returns (names: seq<string>, femaleRatings: seq<real>, otherRatings: seq<real>)
    ensures names == FemaleNamesOf(ds)
    ensures femaleRatings == FemaleRatingsOf(ds, rating)
    ensures otherRatings == OtherRatingsOf(ds, rating)
  {
    names, femaleRatings, otherRatings := [], [], [];
    for j := 0 to |ds|
      invariant names == FemaleNamesOf(ds[..j])
      invariant femaleRatings == FemaleRatingsOf(ds[..j], rating)
      invariant otherRatings == OtherRatingsOf(ds[..j], rating)
    {
      DirectorStep(ds, j, rating);
      if ds[j].gender == Female {
        names := names + [ds[j].name];
        femaleRatings := femaleRatings + [rating];
      } else {
        otherRatings := otherRatings + [rating];
      }
    }
    assert ds[..|ds|] == ds;
  }

  /** The outer loop over the merged rows, appending each row's contributions. */
  method Tally(merged: seq<MergedRow>) returns (femaleNames: seq<string>, femaleRatings: seq<real>, otherRatings: seq<real>)
    ensures femaleNames == FemaleNames(merged)
    ensures femaleRatings == FemaleRatings(merged)
    ensures otherRatings == OtherRatings(merged)
  {
    femaleNames, femaleRatings, otherRatings := [], [], [];
    for i := 0 to |merged|
      invariant femaleNames == FemaleNames(merged[..i])
      invariant femaleRatings == FemaleRatings(merged[..i])
      invariant otherRatings == OtherRatings(merged[..i])
    {
      var names, female, other := TallyRow(merged[i].directors, merged[i].rating);
      RowStep(merged, i);
      femaleNames := femaleNames + names;
      femaleRatings := femaleRatings + female;
      otherRatings := otherRatings + other;
    }
    assert merged[..|merged|] == merged;
  }

  /** The statistics part of the analysis: tally, top picks and averages. */
  method Analyze(merged: seq<MergedRow>) returns (report: Report)
    ensures report.femaleAvg == Mean(FemaleRatings(merged))
    ensures report.otherAvg == Mean(OtherRatings(merged))
    ensures report.mostWatched == MostCommon(FemaleNames(merged))
    ensures report.topPicks == TopPicks(merged)
  {
    var femaleNames, femaleRatings, otherRatings := Tally(merged);
    report := Report(Mean(femaleRatings), Mean(otherRatings), MostCommon(femaleNames), TopPicks(merged));
  }

  // ---------------------------------------------------------------------
  // Worked example
  // ---------------------------------------------------------------------

  /** A row directed by one woman, `name`, adds her name once and its rating once to the female bucket. */
  lemma WomanDirectedRow(r: MergedRow, name: string)
    requires r.directors == [Director(name, Female)]
    ensures FemaleNamesOf(r.directors) == [name]
    ensures FemaleRatingsOf(r.directors, r.rating) == [r.rating]
    ensures OtherRatingsOf(r.directors, r.rating) == []
    ensures HasFemaleDirector(r.directors)
  {
    assert r.directors[..0] == [];
    assert r.directors[0].gender == Female;
  }

  /** A row with one director of the other category adds its rating once to the other bucket. */
  lemma OtherDirectedRow(r: MergedRow)
    requires |r.directors| == 1 && r.directors[0].gender == Other
    ensures FemaleNamesOf(r.directors) == []
    ensures FemaleRatingsOf(r.directors, r.rating) == []
    ensures OtherRatingsOf(r.directors, r.rating) == [r.rating]
    ensures !HasFemaleDirector(r.directors)
  {
    assert r.directors[..0] == [];
  }

  /**
   * The worked example: a film by the woman `ada` rated 4.0, a film by a
   * director of the other category rated 3.0, and a second film by `ada`
   * rated 5.0 whose id is null.
   */
  predicate WorkedExample(r1: MergedRow, r2: MergedRow, r3: MergedRow, ada: string)
  {
    && r1.rating == 4.0 && r1.directors == [Director(ada, Female)]
    && r2.rating == 3.0 && |r2.directors| == 1 && r2.directors[0].gender == Other
    && r3.rating == 5.0 && r3.directors == [Director(ada, Female)] && r3.tmdbId == None
  }

  /** What the nested loop collects for the worked example. */
  lemma WorkedExampleLists(r1: MergedRow, r2: MergedRow, r3: MergedRow, ada: string)
    requires WorkedExample(r1, r2, r3, ada)
    ensures FemaleRatings([r1, r2, r3]) == [4.0, 5.0]
    ensures OtherRatings([r1, r2, r3]) == [3.0]
    ensures FemaleNames([r1, r2, r3]) == [ada, ada]
  {
    WomanDirectedRow(r1, ada);
    OtherDirectedRow(r2);
    WomanDirectedRow(r3, ada);
    assert [r1][..0] == [];
    assert [r1, r2][..1] == [r1];
    assert [r1, r2, r3][..2] == [r1, r2];
    assert FemaleRatings([r1]) == [4.0];
    assert FemaleRatings([r1, r2]) == [4.0];
    assert OtherRatings([r1]) == [];
    assert OtherRatings([r1, r2]) == [3.0];
    assert FemaleNames([r1]) == [ada];
    assert FemaleNames([r1, r2]) == [ada];
  }

  /** The averages of the worked example: 4.5 for women, 3.0 for the others. */
  lemma WorkedExampleMeans(r1: MergedRow, r2: MergedRow, r3: MergedRow, ada: string)
    requires WorkedExample(r1, r2, r3, ada)
    ensures Mean(FemaleRatings([r1, r2, r3])) == 4.5
    ensures Mean(OtherRatings([r1, r2, r3])) == 3.0
  {
    WorkedExampleLists(r1, r2, r3, ada);
    assert [4.0, 5.0][..1] == [4.0] && [4.0][..0] == [] && [3.0][..0] == [];
    assert Sum([4.0]) == 4.0;
  }

  /** In the worked example `ada` is the most watched woman director, with two films. */
  lemma WorkedExampleMostWatched(r1: MergedRow, r2: MergedRow, r3: MergedRow, ada: string)
    requires WorkedExample(r1, r2, r3, ada)
    ensures MostCommon(FemaleNames([r1, r2, r3])) == Some(DirectorTally(ada, 2))
  {
    WorkedExampleLists(r1, r2, r3, ada);
    assert multiset([ada, ada])[ada] == 2;
    assert Leader([ada, ada], 1, 0) == 0;
  }

  /** In the worked example the 5.0 film is the only top pick, its null id output as 0. */
  lemma WorkedExampleTopPicks(r1: MergedRow, r2: MergedRow, r3: MergedRow, ada: string)
    requires WorkedExample(r1, r2, r3, ada)
    ensures TopPicks([r1, r2, r3]) == [Pick(r3.name, r3.year, 0, 5.0, r3.uri)]
  {
    WomanDirectedRow(r1, ada);
    OtherDirectedRow(r2);
    WomanDirectedRow(r3, ada);
    assert [r1, r2, r3][1..] == [r2, r3] && [r2, r3][1..] == [r3] && [r3][1..] == [];
    assert FemaleDirected([r3]) == [r3];
    assert FemaleDirected([r2, r3]) == [r3];
    assert FemaleDirected([r1, r2, r3]) == [r1, r3];
    assert [r1, r3][1..] == [r3];
    assert MaxRating([r1, r3]) == 5.0;
    assert RatedAt([r3], 5.0) == [PickOf(r3)];
    assert RatedAt([r1, r3], 5.0) == [PickOf(r3)];
  }
}
