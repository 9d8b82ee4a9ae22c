/**
  `UserStore` (backend/models/User.js) over an in-memory map from user id to
  profile document, standing for the NeDB collection.
 */
module UserStore {
  import opened Wrappers
  import opened ScoreMap
  import opened Profiles

  datatype Result<T> = Ok(value: T) | Err(message: string)

  /** What `undoLastInteraction` resolves with; `message` is "" when the source sets none. */
  datatype UndoResult = UndoResult(undone: bool, movieDetails: Option<Details>, message: string)

  const NOTHING_TO_UNDO := "No interactions to undo."
  const USER_NOT_FOUND := "User not found"

  class Store {
    var profiles: map<string, Profile>

    /** Every document is filed under its own id and its taste profile is the recomputation of its history. */
    ghost predicate Valid()
      reads this
    {
      forall id :: id in profiles ==> profiles[id].userId == id && Consistent(profiles[id])
    }

    constructor ()
      ensures Valid() && profiles == map[]
    {
      profiles := map[];
    }

    /** `findOrCreate`: an existing document is returned as it is, otherwise an empty one is inserted. */
    method FindOrCreate(userId: string) returns (p: Profile)
      requires Valid()
      modifies this
      ensures Valid()
      ensures userId in old(profiles) ==> p == old(profiles)[userId] && profiles == old(profiles)
      ensures userId !in old(profiles) ==> p == NewProfile(userId) && profiles == old(profiles)[userId := p]
      ensures profiles == old(profiles)[userId := p]
    {
      if userId in profiles {
        return profiles[userId];
      }
      p := NewProfile(userId);
      profiles := profiles[userId := p];
    }

    /** `addInteraction`: pushes one interaction and rebuilds the taste profile; an unknown user is an error. */
    method AddInteraction(userId: string, movieId: int, kind: string, movieDetails: Option<Details>)
      returns (r: Result<nat>)
      requires Valid()
      modifies this
      ensures Valid()
      ensures userId !in old(profiles) ==> r == Err(USER_NOT_FOUND) && profiles == old(profiles)
      ensures userId in old(profiles) ==>
        r == Ok(1) &&
        profiles == old(profiles)[userId := WithInteraction(old(profiles)[userId], Interaction(movieId, kind, movieDetails))]
    {
      if userId !in profiles {
        return Err(USER_NOT_FOUND);
      }
      var user := profiles[userId];
      var interactions := user.interactions + [Interaction(movieId, kind, movieDetails)];
      var tasteProfile := RecalculateTasteProfile(interactions);
      profiles := profiles[userId := user.(interactions := interactions, tasteProfile := tasteProfile)];
      r := Ok(1);
    }

    /**
      `undoLastInteraction`: pops the last interaction, rebuilds the taste
      profile and hands back the popped snapshot; a missing user or an empty
      history changes nothing.
     */
    method UndoLastInteraction(userId: string) returns (r: UndoResult)
      requires Valid()
      modifies this
      ensures Valid()
      ensures userId !in old(profiles) || old(profiles)[userId].interactions == [] ==>
        r == UndoResult(false, None, NOTHING_TO_UNDO) && profiles == old(profiles)
      ensures userId in old(profiles) && old(profiles)[userId].interactions != [] ==>
        var p := old(profiles)[userId];
        r == UndoResult(true, p.interactions[|p.interactions| - 1].movieDetails, "") &&
        profiles == old(profiles)[userId := WithoutLastInteraction(p)]
    {
      if userId !in profiles || profiles[userId].interactions == [] {
        return UndoResult(false, None, NOTHING_TO_UNDO);
      }
      var user := profiles[userId];
      var last := user.interactions[|user.interactions| - 1];
      var interactions := user.interactions[..|user.interactions| - 1];
      var tasteProfile := RecalculateTasteProfile(interactions);
      profiles := profiles[userId := user.(interactions := interactions, tasteProfile := tasteProfile)];
      r := UndoResult(true, last.movieDetails, "");
    }

    /** `resetUserProfile`: an update without upsert, so an unknown user is left alone. */
    method ResetUserProfile(userId: string) returns (numReplaced: nat)
      requires Valid()
      modifies this
      ensures Valid()
      ensures userId !in old(profiles) ==> numReplaced == 0 && profiles == old(profiles)
      ensures userId in old(profiles) ==>
        numReplaced == 1 && profiles == old(profiles)[userId := Reset(old(profiles)[userId])]
    {
      if userId !in profiles {
        return 0;
      }
      var user := profiles[userId];
      profiles := profiles[userId := user.(interactions := [], tasteProfile := EmptyTaste(), suggestedMovies := [])];
      numReplaced := 1;
    }

    /** `updateSuggestedMovies`: replaces the list, creating the document when it is missing (upsert). */
    method UpdateSuggestedMovies(userId: string, suggestedMovies: seq<SuggestedMovie>) returns (numReplaced: nat)
      requires Valid()
      modifies this
      ensures Valid()
      ensures numReplaced == 1
      ensures userId in old(profiles) ==>
        profiles == old(profiles)[userId := old(profiles)[userId].(suggestedMovies := suggestedMovies)]
      ensures userId !in old(profiles) ==>
        profiles == old(profiles)[userId := NewProfile(userId).(suggestedMovies := suggestedMovies)]
    {
      var user := if userId in profiles then profiles[userId] else NewProfile(userId);
      profiles := profiles[userId := user.(suggestedMovies := suggestedMovies)];
      numReplaced := 1;
    }

    /** `getUserProfile`: the document, or `null`. */
    method GetUserProfile(userId: string) returns (p: Option<Profile>)
      ensures p.Some? <==> userId in profiles
      ensures p.Some? ==> p.value == profiles[userId]
    {
      p := if userId in profiles then Some(profiles[userId]) else None;
    }

    /**
      `_recalculateTasteProfile`: one pass over the history, adding the
      interaction's score under every genre, the director, every writer and
      every actor of its snapshot.
     */
    method RecalculateTasteProfile(interactions: seq<Interaction>) returns (tp: TasteProfile)
      ensures tp == Recalc(interactions)
    {
      tp := TasteProfile([], [], [], []);
      var i := 0;
      while i < |interactions|
        invariant 0 <= i <= |interactions|
        invariant tp == Recalc(interactions[..i])
      {
        var interaction := interactions[i];
        ghost var before := tp;
        assert interactions[..i + 1][..i] == interactions[..i];
        assert Recalc(interactions[..i + 1]) == Apply(before, interaction);
        if interaction.movieDetails.Some? {
          var details := interaction.movieDetails.value;
          var score := if interaction.kind == LIKE || interaction.kind == STRONG_LIKE then 1 else -1;
          var genres := tp.genres;
          if details.genres.Some? {
            genres := AccumulateKeys(genres, details.genres.value, score);
          }
          var directors := tp.directors;
          if details.director.Some? && details.director.value != "" {
            directors := Bump(directors, SanitizeKey(details.director.value), score);
            assert [details.director.value][..0] == [];
          }
          var writers := tp.writers;
          if details.writers.Some? {
            writers := AccumulateKeys(writers, details.writers.value, score);
          }
          var actors := tp.actors;
          if details.actors.Some? {
            actors := AccumulateKeys(actors, details.actors.value, score);
          }
          assert genres == AddKeys(before.genres, Attributes(details, Genres), score);
          assert directors == AddKeys(before.directors, Attributes(details, Directors), score);
          assert writers == AddKeys(before.writers, Attributes(details, Writers), score);
          assert actors == AddKeys(before.actors, Attributes(details, Actors), score);
          tp := TasteProfile(genres, directors, writers, actors);
          assert score == InteractionScore(interaction.kind);
          assert tp == Apply(before, interaction);
        }
        i := i + 1;
      }
      assert interactions[..i] == interactions;
    }

    /** The inner `forEach` over one list of names. */
    method AccumulateKeys(scores: Scores, names: seq<string>, score: int) returns (r: Scores)
      ensures r == AddKeys(scores, names, score)
    {
      r := scores;
      for j := 0 to |names|
        invariant r == AddKeys(scores, names[..j], score)
      {
        assert names[..j + 1][..j] == names[..j];
        r := Bump(r, SanitizeKey(names[j]), score);
      }
      assert names[..|names|] == names;
    }
  }
}
