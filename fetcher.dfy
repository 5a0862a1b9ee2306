/**
 * The lookup of one film against the movie database: search by name and
 * year, take the first hit, read its credits and keep the directors. The two
 * HTTP replies are inputs; a transport failure is the reply `Failed`.
 */
module Fetcher {
  import opened Wrappers
  import opened Movies

  /** A decoded HTTP reply, or the failure of the request. */
  datatype Reply<T> = Received(body: T) | Failed

  /** One hit of the search; `id` is None when the hit has no `id` key. */
  datatype SearchHit = SearchHit(id: Option<int>)

  /** One crew entry of the credits; each field is None when its key is missing. */
  datatype CrewMember = CrewMember(name: Option<string>, job: Option<string>, gender: Option<int>)

  /**
   * The replies for one lookup. The search body is None when it has no
   * `results` key; the credits body is None when it has no `crew` key.
   */
  datatype ApiReplies = ApiReplies(search: Reply<Option<seq<SearchHit>>>, credits: Reply<Option<seq<CrewMember>>>)

  /** The gender code the database uses for women. */
  const FemaleCode := 1

  predicate IsDirector(p: CrewMember)
  {
    p.job == Some("Director")
  }

  /** The crew entries whose job is "Director", in crew order. */
  function DirectorEntries(crew: seq<CrewMember>): seq<CrewMember>
  {
    if crew == [] then []
    else (if IsDirector(crew[0]) then [crew[0]] else []) + DirectorEntries(crew[1..])
  }

  /** A crew entry can be read without a missing key. */
  predicate Readable(p: CrewMember)
  {
    p.job.Some? && (IsDirector(p) ==> p.name.Some? && p.gender.Some?)
  }

  /** The director record for a readable director entry. */
  function Label(p: CrewMember): (d: Director)
    requires p.name.Some? && p.gender.Some?
    ensures d.name == p.name.value
    ensures d.gender == Female <==> p.gender.value == FemaleCode
  {
    Director(p.name.value, if p.gender.value == FemaleCode then Female else Other)
  }

  /**
   * The director comprehension of the lookup. It fails (None) when an entry
   * has no `job`, or a director entry has no `name` or `gender`.
   */
  function ExtractDirectors(crew: seq<CrewMember>): (r: Option<seq<Director>>)
    ensures r.Some? <==> forall i :: 0 <= i < |crew| ==> Readable(crew[i])
    ensures r.Some? ==> |r.value| == |DirectorEntries(crew)|
    ensures r.Some? ==> forall k :: 0 <= k < |r.value| ==>
      DirectorEntries(crew)[k].name.Some? && DirectorEntries(crew)[k].gender.Some? &&
      r.value[k] == Label(DirectorEntries(crew)[k])
  {
    if crew == [] then Some([])
    else if !Readable(crew[0]) then None
    else
      match ExtractDirectors(crew[1..])
      case None => None
      case Some(rest) =>
        assert forall i :: 0 <= i < |crew| - 1 ==> crew[1..][i] == crew[i + 1];
        Some((if IsDirector(crew[0]) then [Label(crew[0])] else []) + rest)
  }

  /** Filtering director entries distributes over concatenation: it keeps order. */
  lemma {:induction false} DirectorEntriesAppend(a: seq<CrewMember>, b: seq<CrewMember>)
    ensures DirectorEntries(a + b) == DirectorEntries(a) + DirectorEntries(b)
  {
    if a == [] {
      assert a + b == b;
    } else {
      var head := if IsDirector(a[0]) then [a[0]] else [];
      assert (a + b)[0] == a[0];
      assert (a + b)[1..] == a[1..] + b;
      DirectorEntriesAppend(a[1..], b);
      assert DirectorEntries(a + b) == head + (DirectorEntries(a[1..]) + DirectorEntries(b));
      assert DirectorEntries(a) == head + DirectorEntries(a[1..]);
    }
  }

  /** Exactly the director entries are kept, each as often as it occurs. */
  lemma {:induction false} DirectorEntriesCount(crew: seq<CrewMember>, p: CrewMember)
    ensures multiset(DirectorEntries(crew))[p] == if IsDirector(p) then multiset(crew)[p] else 0
  {
    if crew != [] {
      assert crew == [crew[0]] + crew[1..];
      DirectorEntriesCount(crew[1..], p);
    }
  }

  /** The failed lookup. */
  const NoMatch := FetchResult(None, [])

  /**
   * `get_movie_data`: no results, a failed request, or a missing `results`,
   * `id`, `job`, `name` or `gender` key all give (None, []); a missing `crew`
   * key is an empty crew. Otherwise the first hit's id and its directors.
   */
  function FetchMovie(replies: ApiReplies): (r: FetchResult)
    ensures r.movieId.None? ==> r == NoMatch
    ensures r != NoMatch <==>
      && replies.search.Received? && replies.search.body.Some? && |replies.search.body.value| > 0
      && replies.search.body.value[0].id.Some?
      && replies.credits.Received?
      && ExtractDirectors(replies.credits.body.GetOr([])).Some?
    ensures r != NoMatch ==>
      && r.movieId == replies.search.body.value[0].id
      && Some(r.directors) == ExtractDirectors(replies.credits.body.GetOr([]))
  {
    match replies.search
    case Failed => NoMatch
    case Received(results) =>
      if results.None? || |results.value| == 0 then NoMatch
      else if results.value[0].id.None? then NoMatch
      else
        match replies.credits
        case Failed => NoMatch
        case Received(crew) =>
          match ExtractDirectors(crew.GetOr([]))
          case None => NoMatch
          case Some(directors) => FetchResult(results.value[0].id, directors)
  }
}
