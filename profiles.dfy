/**
  The profile documents kept by the user store (backend/models/User.js) and
  the taste-profile scoring `_recalculateTasteProfile`, as values and
  functions. The store itself is the class in user_store.dfy.
 */
module Profiles {
  import opened Wrappers
  import opened ScoreMap
  import opened Sorting

  /** Interaction types the client sends. Any other string is accepted and scored like a dislike. */
  const LIKE := "like"
  const STRONG_LIKE := "strong_like"
  const DISLIKE := "dislike"
  const STRONG_DISLIKE := "strong_dislike"
  const WATCHLIST := "watchlist"
  const NOT_INTERESTED := "not_interested"

  /**
    The `movieDetails` snapshot stored with an interaction. The client builds it
    from a movie card, so a list field that is missing or not an array is
    `None`, and a missing or `null` director is `None`; a missing title is "".
   */
  datatype Details = Details(
    title: string,
    genres: Option<seq<string>>,
    director: Option<string>,
    writers: Option<seq<string>>,
    actors: Option<seq<string>>)

  datatype Interaction = Interaction(movieId: int, kind: string, movieDetails: Option<Details>)

  datatype SuggestedMovie = SuggestedMovie(movieId: int, movieTitle: string)

  datatype TasteProfile = TasteProfile(genres: Scores, directors: Scores, writers: Scores, actors: Scores)

  datatype Profile = Profile(
    userId: string,
    interactions: seq<Interaction>,
    tasteProfile: TasteProfile,
    suggestedMovies: seq<SuggestedMovie>)

  datatype Category = Genres | Directors | Writers | Actors

  function EmptyTaste(): TasteProfile
  {
    TasteProfile([], [], [], [])
  }

  /** The document `findOrCreate` inserts for an unknown user. */
  function NewProfile(userId: string): Profile
  {
    Profile(userId, [], EmptyTaste(), [])
  }

  function Field(tp: TasteProfile, c: Category): Scores
  {
    match c
    case Genres => tp.genres
    case Directors => tp.directors
    case Writers => tp.writers
    case Actors => tp.actors
  }

  /** `_sanitizeKey`: every `.` becomes `_`. */
  function SanitizeKey(key: string): (r: string)
    ensures |r| == |key|
    ensures forall i :: 0 <= i < |key| ==> r[i] == (if key[i] == '.' then '_' else key[i])
    ensures '.' !in r
  {
    if key == [] then []
    else [if key[0] == '.' then '_' else key[0]] + SanitizeKey(key[1..])
  }

  /** Sanitizing a sanitized key changes nothing. */
  lemma SanitizeIdempotent(key: string)
    ensures SanitizeKey(SanitizeKey(key)) == SanitizeKey(key)
  {
    var once := SanitizeKey(key);
    assert forall i :: 0 <= i < |once| ==> once[i] != '.';
  }

  /** +1 for `like` and `strong_like`, -1 for every other type. */
  function InteractionScore(kind: string): int
  {
    if kind == LIKE || kind == STRONG_LIKE then 1 else -1
  }

  /** The raw names a snapshot contributes to one category; the director only when it is a non-empty string. */
  function Attributes(d: Details, c: Category): seq<string>
  {
    match c
    case Genres => if d.genres.Some? then d.genres.value else []
    case Directors => if d.director.Some? && d.director.value != "" then [d.director.value] else []
    case Writers => if d.writers.Some? then d.writers.value else []
    case Actors => if d.actors.Some? then d.actors.value else []
  }

  /** Adds `d` under the sanitized form of each name, left to right. */
  function AddKeys(s: Scores, names: seq<string>, d: int): Scores
  {
    if names == [] then s
    else Bump(AddKeys(s, names[..|names| - 1], d), SanitizeKey(names[|names| - 1]), d)
  }

  /** One iteration of the outer `forEach`: a snapshot-less interaction is skipped. */
  function Apply(tp: TasteProfile, x: Interaction): TasteProfile
  {
    match x.movieDetails
    case None => tp
    case Some(d) =>
      var score := InteractionScore(x.kind);
      TasteProfile(
        AddKeys(tp.genres, Attributes(d, Genres), score),
        AddKeys(tp.directors, Attributes(d, Directors), score),
        AddKeys(tp.writers, Attributes(d, Writers), score),
        AddKeys(tp.actors, Attributes(d, Actors), score))
  }

  /** `_recalculateTasteProfile`: the profile rebuilt from scratch over the whole history. */
  function Recalc(xs: seq<Interaction>): TasteProfile
  {
    if xs == [] then EmptyTaste()
    else Apply(Recalc(xs[..|xs| - 1]), xs[|xs| - 1])
  }

  // ---------------------------------------------------------------------------
  // Reference definition of the scores: plain sums over the history.

  /** How many of `names` sanitize to `k`. */
  function Occurrences(names: seq<string>, k: string): nat
  {
    if names == [] then 0
    else Occurrences(names[..|names| - 1], k) + (if SanitizeKey(names[|names| - 1]) == k then 1 else 0)
  }

  /** What one interaction adds to key `k` of category `c`. */
  function Contribution(x: Interaction, c: Category, k: string): int
  {
    match x.movieDetails
    case None => 0
    case Some(d) => InteractionScore(x.kind) * Occurrences(Attributes(d, c), k)
  }

  predicate Mentions(x: Interaction, c: Category, k: string)
  {
    x.movieDetails.Some? && Occurrences(Attributes(x.movieDetails.value, c), k) > 0
  }

  function Total(xs: seq<Interaction>, c: Category, k: string): int
  {
    if xs == [] then 0
    else Total(xs[..|xs| - 1], c, k) + Contribution(xs[|xs| - 1], c, k)
  }

  lemma MulSucc(d: int, o: nat)
    ensures d * (o + 1) == d * o + d
  {
  }

  lemma {:induction false} AddKeysGet(s: Scores, names: seq<string>, d: int, k: string)
    ensures Get(AddKeys(s, names, d), k) == Get(s, k) + d * Occurrences(names, k)
  {
    if names != [] {
      var init := names[..|names| - 1];
      var before := AddKeys(s, init, d);
      var n := SanitizeKey(names[|names| - 1]);
      var o := Occurrences(init, k);
      AddKeysGet(s, init, d, k);
      assert AddKeys(s, names, d) == Bump(before, n, d);
      if n == k {
        assert Occurrences(names, k) == o + 1;
        MulSucc(d, o);
      } else {
        assert Occurrences(names, k) == o;
      }
    }
  }

  lemma {:induction false} AddKeysHas(s: Scores, names: seq<string>, d: int, k: string)
    ensures Has(AddKeys(s, names, d), k) <==> Has(s, k) || Occurrences(names, k) > 0
  {
    if names != [] {
      var init := names[..|names| - 1];
      AddKeysHas(s, init, d, k);
      BumpHas(AddKeys(s, init, d), SanitizeKey(names[|names| - 1]), d);
    }
  }

  lemma {:induction false} AddKeysDistinct(s: Scores, names: seq<string>, d: int)
    requires DistinctKeys(s)
    ensures DistinctKeys(AddKeys(s, names, d))
  {
    if names != [] {
      var init := names[..|names| - 1];
      AddKeysDistinct(s, init, d);
      BumpDistinct(AddKeys(s, init, d), SanitizeKey(names[|names| - 1]), d);
    }
  }

  lemma ApplyField(tp: TasteProfile, x: Interaction, c: Category)
    ensures Field(Apply(tp, x), c) ==
      if x.movieDetails.None? then Field(tp, c)
      else AddKeys(Field(tp, c), Attributes(x.movieDetails.value, c), InteractionScore(x.kind))
  {
  }

  /**
    The rebuilt profile IS the sum: under every category, a key is present
    exactly when some interaction with a snapshot names it, its score is the
    sum of the interactions' contributions, and no key appears twice.
   */
  lemma {:induction false} RecalcAt(xs: seq<Interaction>, c: Category, k: string)
    ensures Get(Field(Recalc(xs), c), k) == Total(xs, c, k)
    ensures Has(Field(Recalc(xs), c), k) <==> exists i :: 0 <= i < |xs| && Mentions(xs[i], c, k)
  {
    RecalcGet(xs, c, k);
    RecalcHas(xs, c, k);
  }

  lemma {:induction false} RecalcGet(xs: seq<Interaction>, c: Category, k: string)
    ensures Get(Field(Recalc(xs), c), k) == Total(xs, c, k)
  {
    if xs != [] {
      var init := xs[..|xs| - 1];
      var x := xs[|xs| - 1];
      RecalcGet(init, c, k);
      ApplyField(Recalc(init), x, c);
      if x.movieDetails.Some? {
        AddKeysGet(Field(Recalc(init), c), Attributes(x.movieDetails.value, c), InteractionScore(x.kind), k);
      }
      assert Total(xs, c, k) == Total(init, c, k) + Contribution(x, c, k);
    }
  }

  lemma {:induction false} RecalcHas(xs: seq<Interaction>, c: Category, k: string)
    ensures Has(Field(Recalc(xs), c), k) <==> exists i :: 0 <= i < |xs| && Mentions(xs[i], c, k)
  {
    if xs != [] {
      var init := xs[..|xs| - 1];
      var x := xs[|xs| - 1];
      RecalcHas(init, c, k);
      ApplyField(Recalc(init), x, c);
      if x.movieDetails.Some? {
        AddKeysHas(Field(Recalc(init), c), Attributes(x.movieDetails.value, c), InteractionScore(x.kind), k);
      }
      assert forall i :: 0 <= i < |init| ==> init[i] == xs[i];
      if Has(Field(Recalc(xs), c), k) && !Mentions(x, c, k) {
        var i :| 0 <= i < |init| && Mentions(init[i], c, k);
        assert Mentions(xs[i], c, k);
      }
    }
  }

  lemma {:induction false} RecalcDistinct(xs: seq<Interaction>, c: Category)
    ensures DistinctKeys(Field(Recalc(xs), c))
  {
    if xs != [] {
      var init := xs[..|xs| - 1];
      var x := xs[|xs| - 1];
      RecalcDistinct(init, c);
      ApplyField(Recalc(init), x, c);
      if x.movieDetails.Some? {
        AddKeysDistinct(Field(Recalc(init), c), Attributes(x.movieDetails.value, c), InteractionScore(x.kind));
      }
    }
  }

  lemma {:induction false} TotalConcat(xs: seq<Interaction>, ys: seq<Interaction>, c: Category, k: string)
    ensures Total(xs + ys, c, k) == Total(xs, c, k) + Total(ys, c, k)
  {
    if ys != [] {
      var init := ys[..|ys| - 1];
      var zs := xs + ys;
      assert zs[..|zs| - 1] == xs + init;
      assert zs[|zs| - 1] == ys[|ys| - 1];
      assert Total(zs, c, k) == Total(xs + init, c, k) + Contribution(ys[|ys| - 1], c, k);
      TotalConcat(xs, init, c, k);
    } else {
      assert xs + ys == xs;
    }
  }

  /** Taking one interaction out of the history takes out exactly its contribution. */
  lemma TotalRemoveAt(ys: seq<Interaction>, j: nat, c: Category, k: string)
    requires j < |ys|
    ensures Total(ys, c, k) == Total(ys[..j] + ys[j + 1..], c, k) + Contribution(ys[j], c, k)
  {
    assert ys == ys[..j] + ([ys[j]] + ys[j + 1..]);
    TotalConcat(ys[..j], [ys[j]] + ys[j + 1..], c, k);
    TotalConcat([ys[j]], ys[j + 1..], c, k);
    TotalConcat(ys[..j], ys[j + 1..], c, k);
    assert Total([ys[j]], c, k) == Contribution(ys[j], c, k) by {
      assert [ys[j]][..0] == [];
    }
  }

  lemma {:induction false} TotalPermutation(xs: seq<Interaction>, ys: seq<Interaction>, c: Category, k: string)
    requires multiset(xs) == multiset(ys)
    ensures Total(xs, c, k) == Total(ys, c, k)
    decreases |xs|
  {
    if xs != [] {
      var init := xs[..|xs| - 1];
      var x := xs[|xs| - 1];
      assert x in multiset(ys) by {
        assert x in xs;
      }
      var j :| 0 <= j < |ys| && ys[j] == x;
      var rest := ys[..j] + ys[j + 1..];
      assert multiset(init) == multiset(rest) by {
        RemoveAt(ys, j);
        RemoveAt(xs, |xs| - 1);
        assert xs[..|xs| - 1] + xs[|xs|..] == init;
      }
      TotalPermutation(init, rest, c, k);
      TotalRemoveAt(ys, j, c, k);
      assert Total(xs, c, k) == Total(init, c, k) + Contribution(x, c, k);
    }
  }

  /**
    Scores are plain sums, so the rebuilt profile does not depend on the
    order of the history: any reordering gives the same keys with the same
    scores (only the insertion order of the keys may differ).
   */
  lemma RecalcPermutation(xs: seq<Interaction>, ys: seq<Interaction>, c: Category, k: string)
    requires multiset(xs) == multiset(ys)
    ensures Get(Field(Recalc(xs), c), k) == Get(Field(Recalc(ys), c), k)
    ensures Has(Field(Recalc(xs), c), k) <==> Has(Field(Recalc(ys), c), k)
  {
    RecalcAt(xs, c, k);
    RecalcAt(ys, c, k);
    TotalPermutation(xs, ys, c, k);
    if exists i :: 0 <= i < |xs| && Mentions(xs[i], c, k) {
      var i :| 0 <= i < |xs| && Mentions(xs[i], c, k);
      assert xs[i] in multiset(ys);
      var j :| 0 <= j < |ys| && ys[j] == xs[i];
    }
    if exists j :: 0 <= j < |ys| && Mentions(ys[j], c, k) {
      var j :| 0 <= j < |ys| && Mentions(ys[j], c, k);
      assert ys[j] in multiset(xs);
      var i :| 0 <= i < |xs| && xs[i] == ys[j];
    }
  }

  /** The interactions that carry a snapshot. */
  function WithDetails(xs: seq<Interaction>): seq<Interaction>
  {
    if xs == [] then []
    else WithDetails(xs[..|xs| - 1]) + (if xs[|xs| - 1].movieDetails.Some? then [xs[|xs| - 1]] else [])
  }

  /** Interactions without a snapshot contribute nothing, not even key order. */
  lemma {:induction false} RecalcIgnoresMissingDetails(xs: seq<Interaction>)
    ensures Recalc(xs) == Recalc(WithDetails(xs))
  {
    if xs != [] {
      var init := xs[..|xs| - 1];
      var x := xs[|xs| - 1];
      RecalcIgnoresMissingDetails(init);
      if x.movieDetails.Some? {
        var w := WithDetails(init) + [x];
        assert WithDetails(xs) == w;
        assert w[..|w| - 1] == WithDetails(init);
        assert Recalc(w) == Apply(Recalc(WithDetails(init)), x);
      } else {
        assert WithDetails(xs) == WithDetails(init) + [];
        assert WithDetails(init) + [] == WithDetails(init);
      }
    }
  }

  /** A like and then a dislike of the same Drama movie cancel out. */
  lemma LikeThenDislikeCancel(d: Details)
    requires d.genres == Some(["Drama"])
    ensures Get(Recalc([Interaction(550, LIKE, Some(d))]).genres, "Drama") == 1
    ensures Get(Recalc([Interaction(550, LIKE, Some(d)), Interaction(550, DISLIKE, Some(d))]).genres, "Drama") == 0
    ensures Has(Recalc([Interaction(550, LIKE, Some(d)), Interaction(550, DISLIKE, Some(d))]).genres, "Drama")
  {
    var xs := [Interaction(550, LIKE, Some(d)), Interaction(550, DISLIKE, Some(d))];
    assert SanitizeKey("Drama") == "Drama";
    RecalcAt(xs, Genres, "Drama");
    assert xs[..1] == [xs[0]];
    assert [xs[0]][..0] == [];
    assert ["Drama"][..0] == [];
    assert Occurrences(["Drama"], "Drama") == 1;
    assert Contribution(xs[0], Genres, "Drama") == 1;
    assert Contribution(xs[1], Genres, "Drama") == -1;
    assert Total(xs[..1], Genres, "Drama") == 1;
    RecalcAt(xs[..1], Genres, "Drama");
    assert Mentions(xs[0], Genres, "Drama");
  }

  // ---------------------------------------------------------------------------
  // The profile transitions of the store's operations.

  /** The store's invariant: the taste profile is the recomputation of the history. */
  predicate Consistent(p: Profile)
  {
    p.tasteProfile == Recalc(p.interactions)
  }

  /** `addInteraction`: push, then rebuild the taste profile. */
  function WithInteraction(p: Profile, x: Interaction): (r: Profile)
    ensures Consistent(r)
    ensures r.interactions == p.interactions + [x]
    ensures r.userId == p.userId && r.suggestedMovies == p.suggestedMovies
  {
    var xs := p.interactions + [x];
    p.(interactions := xs, tasteProfile := Recalc(xs))
  }

  /** `undoLastInteraction`: pop, then rebuild the taste profile. */
  function WithoutLastInteraction(p: Profile): (r: Profile)
    requires p.interactions != []
    ensures Consistent(r)
    ensures r.interactions + [p.interactions[|p.interactions| - 1]] == p.interactions
    ensures r.userId == p.userId && r.suggestedMovies == p.suggestedMovies
  {
    var xs := p.interactions[..|p.interactions| - 1];
    p.(interactions := xs, tasteProfile := Recalc(xs))
  }

  /** `resetUserProfile`: empty history, four empty score maps, no suggestions. */
  function Reset(p: Profile): (r: Profile)
    ensures Consistent(r)
    ensures r.userId == p.userId && r.interactions == [] && r.suggestedMovies == []
  {
    p.(interactions := [], tasteProfile := EmptyTaste(), suggestedMovies := [])
  }

  /** Adding an interaction and undoing it gives back the profile, taste profile included. */
  lemma UndoAfterAdd(p: Profile, x: Interaction)
    requires Consistent(p)
    ensures WithoutLastInteraction(WithInteraction(p, x)) == p
  {
    var xs := p.interactions + [x];
    assert xs[..|xs| - 1] == p.interactions;
  }
}
