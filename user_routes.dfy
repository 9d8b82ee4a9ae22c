/**
  The decisions of backend/routes/userRoutes.js: the watchlist projection,
  profile creation, and how store results become status codes. The store
  methods the file calls but backend/models/User.js does not define
  (`removeInteraction`, `deleteProfile`, `getAllProfiles`,
  `updateLastActive`) are not modelled; the result of `removeInteraction`
  is a parameter.
 */
module UserRoutes {
  import opened Wrappers
  import opened Profiles
  import opened UserStore
  import opened Http

  /** `interactions.filter(i => i.type === 'watchlist').map(i => i.movieDetails)`. */
  function WatchlistOf(xs: seq<Interaction>): seq<Option<Details>>
  {
    if xs == [] then []
    else (if xs[0].kind == WATCHLIST then [xs[0].movieDetails] else []) + WatchlistOf(xs[1..])
  }

  /** The projection keeps interaction order: it distributes over concatenation. */
  lemma {:induction false} WatchlistConcat(xs: seq<Interaction>, ys: seq<Interaction>)
    ensures WatchlistOf(xs + ys) == WatchlistOf(xs) + WatchlistOf(ys)
  {
    if xs == [] {
      assert xs + ys == ys;
    } else {
      var zs := xs + ys;
      var head := if xs[0].kind == WATCHLIST then [xs[0].movieDetails] else [];
      assert zs[0] == xs[0] && zs[1..] == xs[1..] + ys;
      assert WatchlistOf(zs) == head + WatchlistOf(xs[1..] + ys);
      WatchlistConcat(xs[1..], ys);
      assert WatchlistOf(xs) == head + WatchlistOf(xs[1..]);
      assert head + (WatchlistOf(xs[1..]) + WatchlistOf(ys)) == (head + WatchlistOf(xs[1..])) + WatchlistOf(ys);
    }
  }

  /** A snapshot is on the watchlist exactly when some watchlist interaction carries it. */
  lemma {:induction false} WatchlistMembers(xs: seq<Interaction>, d: Option<Details>)
    ensures d in WatchlistOf(xs) <==> exists i :: 0 <= i < |xs| && xs[i].kind == WATCHLIST && xs[i].movieDetails == d
  {
    if xs != [] {
      WatchlistMembers(xs[1..], d);
      assert forall i :: 0 < i < |xs| ==> xs[i] == xs[1..][i - 1];
      if d in WatchlistOf(xs[1..]) {
        var i :| 0 <= i < |xs[1..]| && xs[1..][i].kind == WATCHLIST && xs[1..][i].movieDetails == d;
        assert xs[i + 1] == xs[1..][i];
      }
    }
  }

  /** Counting: one watchlist entry per watchlist interaction. */
  function CountKind(xs: seq<Interaction>, kind: string): nat
  {
    if xs == [] then 0 else (if xs[0].kind == kind then 1 else 0) + CountKind(xs[1..], kind)
  }

  lemma {:induction false} WatchlistLength(xs: seq<Interaction>)
    ensures |WatchlistOf(xs)| == CountKind(xs, WATCHLIST)
  {
    if xs != [] {
      WatchlistLength(xs[1..]);
    }
  }

  /** Recording a watchlist interaction appends its snapshot; any other kind leaves the watchlist alone. */
  lemma WatchlistAfterInteraction(p: Profile, x: Interaction)
    ensures WatchlistOf(WithInteraction(p, x).interactions) ==
      WatchlistOf(p.interactions) + (if x.kind == WATCHLIST then [x.movieDetails] else [])
  {
    WatchlistConcat(p.interactions, [x]);
    assert WatchlistOf([x]) == (if x.kind == WATCHLIST then [x.movieDetails] else []) + WatchlistOf([]);
  }

  /** `GET /watchlist/:profileName` given what `getUserProfile` found. */
  function WatchlistResponse(profileName: string, found: Option<Profile>): (resp: Response)
    ensures resp.status == 400 <==> profileName == ""
    ensures resp.status == 404 <==> profileName != "" && found.None?
    ensures resp.status == 200 <==> profileName != "" && found.Some?
    ensures resp.status == 200 ==> resp.body == Watchlist(WatchlistOf(found.value.interactions))
  {
    if profileName == "" then Response(400, Error("Missing profileName"))
    else if found.None? then Response(404, Error("User profile not found"))
    else Response(200, Watchlist(WatchlistOf(found.value.interactions)))
  }

  /** `GET /taste-profile/:profileName` given what `getUserProfile` found. */
  function TasteProfileResponse(found: Option<Profile>): (resp: Response)
    ensures resp.status == 404 <==> found.None?
    ensures resp.status == 200 <==> found.Some?
    ensures found.Some? ==> resp.body == Taste(found.value.tasteProfile)
  {
    if found.None? then Response(404, Error("User profile not found"))
    else Response(200, Taste(found.value.tasteProfile))
  }

  const UNDONE := "Last interaction undone successfully"
  const NO_INTERACTIONS := "No interactions to undo"

  /** `POST /undo-last-interaction` given what `undoLastInteraction` resolved with. */
  function UndoResponse(profileName: string, result: UndoResult): (resp: Response)
    ensures resp.status == 400 <==> profileName == ""
    ensures resp.status == 200 <==> profileName != "" && result.undone
    ensures resp.status == 404 <==> profileName != "" && !result.undone
    ensures resp.status == 200 ==> resp.body == Undone(UNDONE, result.movieDetails)
    ensures resp.status == 404 ==> resp.body.Message? && resp.body.message != ""
    ensures resp.status == 404 && result.message != "" ==> resp.body == Message(result.message)
  {
    if profileName == "" then Response(400, Error("Missing profileName"))
    else if result.undone then Response(200, Undone(UNDONE, result.movieDetails))
    else Response(404, Message(if result.message != "" then result.message else NO_INTERACTIONS))
  }

  /** The undo route against the store. */
  method UndoRoute(store: Store, profileName: string) returns (resp: Response)
    requires store.Valid()
    modifies store
    ensures store.Valid()
    ensures profileName == "" ==> resp.status == 400 && store.profiles == old(store.profiles)
    ensures profileName != "" && (profileName !in old(store.profiles) || old(store.profiles)[profileName].interactions == []) ==>
      resp == Response(404, Message(NOTHING_TO_UNDO)) && store.profiles == old(store.profiles)
    ensures profileName != "" && profileName in old(store.profiles) && old(store.profiles)[profileName].interactions != [] ==>
      var p := old(store.profiles)[profileName];
      resp == Response(200, Undone(UNDONE, p.interactions[|p.interactions| - 1].movieDetails))
      && store.profiles == old(store.profiles)[profileName := WithoutLastInteraction(p)]
  {
    if profileName == "" {
      return Response(400, Error("Missing profileName"));
    }
    var result := store.UndoLastInteraction(profileName);
    resp := UndoResponse(profileName, result);
  }

  /** `DELETE /interaction/:profileName/:movieId` given the `removedCount` of the store. */
  function RemoveInteractionResponse(profileName: string, movieId: string, removedCount: nat): (resp: Response)
    ensures resp.status == 400 <==> profileName == "" || movieId == ""
    ensures resp.status == 200 <==> profileName != "" && movieId != "" && removedCount > 0
    ensures resp.status == 404 <==> profileName != "" && movieId != "" && removedCount == 0
    ensures resp.status == 200 ==> resp.body.Removed? && resp.body.removedCount == removedCount
  {
    if profileName == "" || movieId == "" then Response(400, Error("Missing profileName or movieId"))
    else if removedCount > 0 then Response(200, Removed("Interaction removed successfully", removedCount))
    else Response(404, Message("Movie interaction not found for this user."))
  }

  /**
    `POST /create-profile`: 400 for an empty name, 409 when a profile of that
    name exists, otherwise `findOrCreate` inserts it and 201 returns it.
   */
  method CreateProfile(store: Store, profileName: string) returns (resp: Response)
    requires store.Valid()
    modifies store
    ensures store.Valid()
    ensures profileName == "" ==>
      resp == Response(400, Error("Profile name is required")) && store.profiles == old(store.profiles)
    ensures profileName != "" && profileName in old(store.profiles) ==>
      resp == Response(409, Error("Profile with this name already exists")) && store.profiles == old(store.profiles)
    ensures profileName != "" && profileName !in old(store.profiles) ==>
      resp == Response(201, Created("Profile created successfully", NewProfile(profileName)))
      && store.profiles == old(store.profiles)[profileName := NewProfile(profileName)]
  {
    if profileName == "" {
      return Response(400, Error("Profile name is required"));
    }
    var existingProfile := store.GetUserProfile(profileName);
    if existingProfile.Some? {
      return Response(409, Error("Profile with this name already exists"));
    }
    var newProfile := store.FindOrCreate(profileName);
    resp := Response(201, Created("Profile created successfully", newProfile));
  }

  /** `POST /reset-profile`: 400 for an empty name, otherwise reset and 200 whether or not the profile exists. */
  method ResetRoute(store: Store, profileName: string) returns (resp: Response)
    requires store.Valid()
    modifies store
    ensures store.Valid()
    ensures profileName == "" ==> resp.status == 400 && store.profiles == old(store.profiles)
    ensures profileName != "" ==> resp == Response(200, Message("User profile reset successfully"))
    ensures profileName != "" && profileName !in old(store.profiles) ==> store.profiles == old(store.profiles)
    ensures profileName != "" && profileName in old(store.profiles) ==>
      store.profiles == old(store.profiles)[profileName := Reset(old(store.profiles)[profileName])]
  {
    if profileName == "" {
      return Response(400, Error("Missing profileName"));
    }
    var _ := store.ResetUserProfile(profileName);
    resp := Response(200, Message("User profile reset successfully"));
  }
}
