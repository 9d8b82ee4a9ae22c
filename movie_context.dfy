/**
  The swipe deck of frontend/src/context/MovieContext.js: a list of movie
  cards and the index of the current one, changed by `fetchMovies`,
  `handleInteraction` and `handleUndo`. The HTTP answers these react to are
  parameters; recording an interaction has no effect on the deck because its
  errors are caught. `MovieSwipePage` in frontend/src/App.js keeps the same
  state and changes it the same way (swipe_page.dfy).
 */
module MovieContext {
  import opened Wrappers

  /** What `getMovieSuggestions` produced: the `movies` of the answer ([] when absent), or a thrown error. */
  datatype FetchResult<T> = Fetched(movies: seq<T>) | FetchFailed

  /** What `undoLastInteraction` produced: the answer's message and `movieDetails`, or a thrown error. */
  datatype UndoReply<T> = UndoAnswer(message: string, movieDetails: Option<T>) | UndoFailed

  const UNDONE_MESSAGE := "Last interaction undone successfully"

  /** Where `array.splice(start, 0, x)` inserts into an array of length `n`. */
  function SpliceIndex(start: int, n: nat): (k: nat)
    ensures k <= n
    ensures 0 <= start <= n ==> k == start
    ensures start > n ==> k == n
    ensures start < 0 ==> k == if n + start < 0 then 0 else n + start
  {
    if start < 0 then (if n + start < 0 then 0 else n + start)
    else if start > n then n
    else start
  }

  /**
    `[...s].splice(start, 0, x)`: earlier elements stay, `x` takes the
    insertion point, later ones shift up by one.
   */
  function SpliceInsert<T>(s: seq<T>, start: int, x: T): (r: seq<T>)
    ensures |r| == |s| + 1
    ensures r[SpliceIndex(start, |s|)] == x
    ensures forall i :: 0 <= i < SpliceIndex(start, |s|) ==> r[i] == s[i]
    ensures forall i :: SpliceIndex(start, |s|) <= i < |s| ==> r[i + 1] == s[i]
  {
    var k := SpliceIndex(start, |s|);
    s[..k] + [x] + s[k..]
  }

  /** Removing the inserted element gives back the original array. */
  lemma SpliceRemove<T>(s: seq<T>, start: int, x: T)
    ensures SpliceInsert(s, start, x)[..SpliceIndex(start, |s|)] + SpliceInsert(s, start, x)[SpliceIndex(start, |s|) + 1..] == s
  {
    var k := SpliceIndex(start, |s|);
    var r := SpliceInsert(s, start, x);
    assert r[..k] == s[..k];
    assert r[k + 1..] == s[k..];
  }

  class Deck<T> {
    var movies: seq<T>
    var currentIndex: int
    var loading: bool
    /** The user id, "" while it is not set. */
    var userId: string

    constructor (userId: string)
      ensures this.userId == userId && movies == [] && currentIndex == 0 && loading
    {
      this.userId := userId;
      movies := [];
      currentIndex := 0;
      loading := true;
    }

    /** `movies[currentIndex]`, or `None` where JavaScript would read `undefined`. */
    function CurrentMovie(): (m: Option<T>)
      reads this
      ensures m.Some? <==> 0 <= currentIndex < |movies|
      ensures m.Some? ==> m.value == movies[currentIndex]
    {
      if 0 <= currentIndex < |movies| then Some(movies[currentIndex]) else None
    }

    /**
      `fetchMovies`: without a user nothing happens; a non-empty batch
      replaces the deck and restarts it at 0; an empty batch or an error
      empties the deck and leaves the index alone.
     */
    method FetchMovies(result: FetchResult<T>)
      modifies this
      ensures userId == old(userId)
      ensures old(userId) == "" ==>
        movies == old(movies) && currentIndex == old(currentIndex) && loading == old(loading)
      ensures old(userId) != "" ==> !loading
      ensures old(userId) != "" && result.Fetched? && |result.movies| > 0 ==>
        movies == result.movies && currentIndex == 0
      ensures old(userId) != "" && !(result.Fetched? && |result.movies| > 0) ==>
        movies == [] && currentIndex == old(currentIndex)
    {
      if userId == "" {
        return;
      }
      loading := true;
      if result.Fetched? && |result.movies| > 0 {
        movies := result.movies;
        currentIndex := 0;
      } else {
        movies := [];
      }
      loading := false;
    }

    /**
      `handleInteraction(action, movie, movieIndex)` after the interaction is
      recorded (or failed to be): the next card becomes current, or a refetch
      is asked for when the deck is exhausted. `refetch` tells the caller to
      run `FetchMovies`.
     */
    method HandleInteraction(hasMovie: bool, movieIndex: int) returns (refetch: bool)
      modifies this
      ensures movies == old(movies) && userId == old(userId) && loading == old(loading)
      ensures !hasMovie || old(userId) == "" ==> !refetch && currentIndex == old(currentIndex)
      ensures hasMovie && old(userId) != "" && movieIndex + 1 >= |old(movies)| ==>
        refetch && currentIndex == old(currentIndex)
      ensures hasMovie && old(userId) != "" && movieIndex + 1 < |old(movies)| ==>
        !refetch && currentIndex == movieIndex + 1
    {
      refetch := false;
      if !hasMovie || userId == "" {
        return;
      }
      var nextIndex := movieIndex + 1;
      if nextIndex >= |movies| {
        refetch := true;
      } else {
        currentIndex := nextIndex;
      }
    }

    /**
      `handleUndo`: a successful answer with a snapshot splices it in at the
      current index, which then shows it; anything else changes nothing.
     */
    method HandleUndo(reply: UndoReply<T>)
      modifies this
      ensures currentIndex == old(currentIndex) && userId == old(userId) && loading == old(loading)
      ensures old(userId) != "" && reply.UndoAnswer? && reply.message == UNDONE_MESSAGE && reply.movieDetails.Some? ==>
        movies == SpliceInsert(old(movies), currentIndex, reply.movieDetails.value)
      ensures !(old(userId) != "" && reply.UndoAnswer? && reply.message == UNDONE_MESSAGE && reply.movieDetails.Some?) ==>
        movies == old(movies)
      ensures (old(userId) != "" && reply.UndoAnswer? && reply.message == UNDONE_MESSAGE && reply.movieDetails.Some?
               && 0 <= currentIndex <= |old(movies)|) ==> CurrentMovie() == reply.movieDetails
    {
      if userId == "" {
        return;
      }
      if reply.UndoAnswer? && reply.message == UNDONE_MESSAGE && reply.movieDetails.Some? {
        movies := SpliceInsert(movies, currentIndex, reply.movieDetails.value);
      }
    }
  }
}
