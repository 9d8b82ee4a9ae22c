/** The JSON responses the Express routes send: a status code and a body. */
module Http {
  import opened Wrappers
  import opened Profiles
  import opened Tmdb

  datatype Body =
    | Error(error: string)
    | Message(message: string)
    | Movies(movies: seq<Movie>)
    | Undone(message: string, movieDetails: Option<Details>)
    | Watchlist(watchlist: seq<Option<Details>>)
    | Taste(tasteProfile: TasteProfile)
    | Created(message: string, profile: Profile)
    | Removed(message: string, removedCount: nat)

  datatype Response = Response(status: int, body: Body)
}
