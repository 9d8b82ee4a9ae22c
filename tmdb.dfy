/**
  The movie records of backend/routes/movieRoutes.js: what
  `getMovieDetailsFromTMDB` builds from TMDB's search, details and credits
  answers, and the popular-list entries of `getPopularMoviesFromTMDB`. The
  HTTP calls themselves are oracles passed in as functions.
 */
module Tmdb {
  import opened Wrappers

  /** A resolved movie record. `cover` and `imdbId` are `null` when TMDB has none. */
  datatype Movie = Movie(
    id: int,
    title: string,
    description: string,
    cover: Option<string>,
    genres: seq<string>,
    director: Option<string>,
    writers: seq<string>,
    actors: seq<string>,
    imdbId: Option<string>)

  /** One entry of a popular-movies page; a missing title is "". */
  datatype Listing = Listing(id: int, title: string)

  /** TMDB's movie details; an absent `poster_path` or `imdb_id` is "". */
  datatype RawDetails = RawDetails(
    id: int,
    title: string,
    overview: string,
    posterPath: string,
    genres: Option<seq<string>>,
    imdbId: string)

  datatype CrewMember = CrewMember(name: string, job: string, department: string)

  /** TMDB's credits: the crew, and the cast names in billing order. */
  datatype Credits = Credits(crew: seq<CrewMember>, cast: seq<string>)

  const POSTER_BASE := "https://image.tmdb.org/t/p/w500"
  const TOP_ACTORS := 5

  /** `crew.find(person => person.job === 'Director')`. */
  function FirstDirector(crew: seq<CrewMember>): (r: Option<string>)
    ensures r.None? <==> forall i :: 0 <= i < |crew| ==> crew[i].job != "Director"
    ensures r.Some? ==> exists i :: (0 <= i < |crew| && crew[i].job == "Director" && crew[i].name == r.value
      && forall j :: 0 <= j < i ==> crew[j].job != "Director")
  {
    if crew == [] then None
    else if crew[0].job == "Director" then Some(crew[0].name)
    else
      var r := FirstDirector(crew[1..]);
      assert forall i :: 0 < i < |crew| ==> crew[i] == crew[1..][i - 1];
      if r.Some? then
        var i :| 0 <= i < |crew[1..]| && crew[1..][i].job == "Director" && crew[1..][i].name == r.value
          && forall j :: 0 <= j < i ==> crew[1..][j].job != "Director";
        assert crew[i + 1].name == r.value;
        r
      else r
  }

  /** `crew.filter(person => person.department === 'Writing').map(w => w.name)`. */
  function WriterNames(crew: seq<CrewMember>): seq<string>
  {
    if crew == [] then []
    else (if crew[0].department == "Writing" then [crew[0].name] else []) + WriterNames(crew[1..])
  }

  function CountWriting(crew: seq<CrewMember>): nat
  {
    if crew == [] then 0
    else (if crew[0].department == "Writing" then 1 else 0) + CountWriting(crew[1..])
  }

  /** The writers are exactly the names of the Writing department, one per crew member of it. */
  lemma {:induction false} WriterNamesSound(crew: seq<CrewMember>)
    ensures |WriterNames(crew)| == CountWriting(crew)
    ensures forall n :: n in WriterNames(crew) <==>
      exists i :: 0 <= i < |crew| && crew[i].department == "Writing" && crew[i].name == n
  {
    if crew != [] {
      WriterNamesSound(crew[1..]);
      assert forall i :: 0 < i < |crew| ==> crew[i] == crew[1..][i - 1];
      forall n | n in WriterNames(crew[1..])
        ensures exists i :: 0 <= i < |crew| && crew[i].department == "Writing" && crew[i].name == n
      {
        var i :| 0 <= i < |crew[1..]| && crew[1..][i].department == "Writing" && crew[1..][i].name == n;
        assert crew[i + 1] == crew[1..][i];
      }
    }
  }

  /** The record projection at the end of `getMovieDetailsFromTMDB`. */
  function Project(d: RawDetails, c: Credits): (m: Movie)
    ensures m.id == d.id && m.title == d.title && m.description == d.overview
    ensures m.cover.Some? <==> d.posterPath != ""
    ensures m.cover.Some? ==> m.cover.value == POSTER_BASE + d.posterPath
    ensures m.imdbId.Some? <==> d.imdbId != ""
    ensures m.imdbId.Some? ==> m.imdbId.value == d.imdbId
    ensures m.genres == if d.genres.Some? then d.genres.value else []
    ensures m.director == FirstDirector(c.crew)
    ensures m.writers == WriterNames(c.crew)
    ensures |m.actors| == if |c.cast| < TOP_ACTORS then |c.cast| else TOP_ACTORS
    ensures m.actors == c.cast[..|m.actors|]
  {
    Movie(
      d.id,
      d.title,
      d.overview,
      if d.posterPath != "" then Some(POSTER_BASE + d.posterPath) else None,
      if d.genres.Some? then d.genres.value else [],
      FirstDirector(c.crew),
      WriterNames(c.crew),
      if |c.cast| < TOP_ACTORS then c.cast else c.cast[..TOP_ACTORS],
      if d.imdbId != "" then Some(d.imdbId) else None)
  }

  /**
    `getMovieDetailsFromTMDB(title)`: search by title, take the first hit,
    fetch its details and credits and project them. `search` answers `None`
    when the request fails or has no `results`; `lookup` answers `None` when
    either follow-up request fails. Every failure becomes `null`.
   */
  function GetMovieDetails(search: string -> Option<seq<int>>, lookup: int -> Option<(RawDetails, Credits)>, title: string): (r: Option<Movie>)
    ensures r.Some? <==> search(title).Some? && search(title).value != [] && lookup(search(title).value[0]).Some?
    ensures r.Some? ==> var (d, c) := lookup(search(title).value[0]).value; r.value == Project(d, c)
  {
    match search(title)
    case None => None
    case Some(results) =>
      if results == [] then None
      else
        match lookup(results[0])
        case None => None
        case Some(answer) => Some(Project(answer.0, answer.1))
  }
}
