/**
  The `/interact` and `/suggest` handlers of backend/routes/movieRoutes.js.
  TMDB and Gemini are oracles: `popular` gives the listings of a page
  (`[]` on failure), `resolve` gives the record found for a title (`None` for
  `null`), and `gemini` gives the reply text for a prompt (`None` when the
  call throws).
 */
module MovieRoutes {
  import opened Wrappers
  import opened Sorting
  import opened Profiles
  import opened Tmdb
  import opened SuggestionPrompt
  import opened UserStore
  import opened Http

  const BATCH_QUOTA := 5
  const PAGE_LIMIT := 20
  const INTERACTION_THRESHOLD := 0

  // ---- /interact ----

  /** The body of a `/interact` request; a missing string is "", a missing id is 0. */
  datatype InteractRequest = InteractRequest(userId: string, movieId: int, interactionType: string, movieDetails: Option<Details>)

  /** `!userId || !movieId || !interactionType || !movieDetails`. */
  predicate MissingField(req: InteractRequest)
  {
    req.userId == "" || req.movieId == 0 || req.interactionType == "" || req.movieDetails.None?
  }

  /** `/interact`: 400 on a missing field, 500 when the store rejects, otherwise the interaction is recorded. */
  method Interact(store: Store, req: InteractRequest) returns (resp: Response)
    requires store.Valid()
    modifies store
    ensures store.Valid()
    ensures MissingField(req) ==>
      resp == Response(400, Error("Missing required fields")) && store.profiles == old(store.profiles)
    ensures !MissingField(req) && req.userId !in old(store.profiles) ==>
      resp == Response(500, Error("Failed to record interaction")) && store.profiles == old(store.profiles)
    ensures !MissingField(req) && req.userId in old(store.profiles) ==>
      resp == Response(200, Message("Interaction recorded successfully")) &&
      store.profiles == old(store.profiles)[req.userId :=
        WithInteraction(old(store.profiles)[req.userId], Interaction(req.movieId, req.interactionType, req.movieDetails))]
  {
    if MissingField(req) {
      return Response(400, Error("Missing required fields"));
    }
    var r := store.AddInteraction(req.userId, req.movieId, req.interactionType, req.movieDetails);
    if r.Err? {
      return Response(500, Error("Failed to record interaction"));
    }
    resp := Response(200, Message("Interaction recorded successfully"));
  }

  // ---- the ids a candidate is checked against ----

  predicate Interacted(p: Profile, id: int)
  {
    exists i :: 0 <= i < |p.interactions| && p.interactions[i].movieId == id
  }

  predicate StoredSuggested(p: Profile, id: int)
  {
    exists i :: 0 <= i < |p.suggestedMovies| && p.suggestedMovies[i].movieId == id
  }

  predicate InBatch(batch: seq<Movie>, id: int)
  {
    exists k :: 0 <= k < |batch| && batch[k].id == id
  }

  /** Interacted, already suggested earlier, or already in this batch. */
  predicate Seen(p: Profile, batch: seq<Movie>, id: int)
  {
    Interacted(p, id) || StoredSuggested(p, id) || InBatch(batch, id)
  }

  /** No record of the batch was interacted with or is stored as suggested. */
  predicate Unseen(p: Profile, batch: seq<Movie>)
  {
    forall k :: 0 <= k < |batch| ==> !Interacted(p, batch[k].id) && !StoredSuggested(p, batch[k].id)
  }

  /** No two records of the batch share an id. */
  predicate DistinctIds(batch: seq<Movie>)
  {
    forall k, k' :: 0 <= k < k' < |batch| ==> batch[k].id != batch[k'].id
  }

  lemma InBatchAppend(batch: seq<Movie>, m: Movie, id: int)
    ensures InBatch(batch + [m], id) <==> InBatch(batch, id) || m.id == id
  {
    var b := batch + [m];
    assert forall k :: 0 <= k < |batch| ==> b[k] == batch[k];
    assert b[|batch|] == m;
  }

  // ---- the popularity path ----

  /**
    One listing of `fetchAndFilterPopularMovies`: with room in the batch, a
    titled listing whose LISTING id is unseen is resolved by title, and the
    resolved record is appended unless resolution failed.
   */
  function PopularStep(p: Profile, resolve: string -> Option<Movie>, batch: seq<Movie>, l: Listing): seq<Movie>
  {
    if |batch| >= BATCH_QUOTA then batch
    else if l.title != "" && !Seen(p, batch, l.id) then
      match resolve(l.title)
      case None => batch
      case Some(m) => batch + [m]
    else batch
  }

  /** The batch after the listings `ls`, starting from an empty batch. */
  function PopularAccept(p: Profile, resolve: string -> Option<Movie>, ls: seq<Listing>): seq<Movie>
  {
    if ls == [] then []
    else PopularStep(p, resolve, PopularAccept(p, resolve, ls[..|ls| - 1]), ls[|ls| - 1])
  }

  /** The listings of pages 1 to `n`, in order. */
  function Pages(popular: int -> seq<Listing>, n: nat): seq<Listing>
  {
    if n == 0 then [] else Pages(popular, n - 1) + popular(n)
  }

  lemma PopularAcceptSnoc(p: Profile, resolve: string -> Option<Movie>, ls: seq<Listing>, l: Listing)
    ensures PopularAccept(p, resolve, ls + [l]) == PopularStep(p, resolve, PopularAccept(p, resolve, ls), l)
  {
    assert (ls + [l])[..|ls + [l]| - 1] == ls;
  }

  /** The popularity batch never holds more than the quota. */
  lemma {:induction false} PopularAcceptBound(p: Profile, resolve: string -> Option<Movie>, ls: seq<Listing>)
    ensures |PopularAccept(p, resolve, ls)| <= BATCH_QUOTA
  {
    if ls != [] {
      PopularAcceptBound(p, resolve, ls[..|ls| - 1]);
    }
  }

  /** Once the batch is full, further listings change nothing. */
  lemma {:induction false} PopularFull(p: Profile, resolve: string -> Option<Movie>, ls: seq<Listing>, more: seq<Listing>)
    requires |PopularAccept(p, resolve, ls)| >= BATCH_QUOTA
    ensures PopularAccept(p, resolve, ls + more) == PopularAccept(p, resolve, ls)
  {
    if more != [] {
      var init := more[..|more| - 1];
      PopularFull(p, resolve, ls, init);
      assert ls + more == (ls + init) + [more[|more| - 1]];
      PopularAcceptSnoc(p, resolve, ls + init, more[|more| - 1]);
    } else {
      assert ls + more == ls;
    }
  }

  /**
    The `k`-th accepted record was found by title for a titled listing of
    `ls` whose listing id was, when checked, neither interacted, nor stored as
    suggested, nor in the batch accepted before it.
   */
  ghost predicate PopularJustified(p: Profile, resolve: string -> Option<Movie>, ls: seq<Listing>, r: seq<Movie>, k: nat)
    requires k < |r|
  {
    exists i :: 0 <= i < |ls| && ls[i].title != "" && resolve(ls[i].title) == Some(r[k])
      && !Interacted(p, ls[i].id) && !StoredSuggested(p, ls[i].id) && !InBatch(r[..k], ls[i].id)
  }

  /** Every record of the popularity batch is justified by a listing. */
  lemma {:induction false} PopularAcceptSound(p: Profile, resolve: string -> Option<Movie>, ls: seq<Listing>)
    ensures forall k :: 0 <= k < |PopularAccept(p, resolve, ls)| ==>
      PopularJustified(p, resolve, ls, PopularAccept(p, resolve, ls), k)
  {
    if ls != [] {
      var init := ls[..|ls| - 1];
      var l := ls[|ls| - 1];
      var b := PopularAccept(p, resolve, init);
      var r := PopularAccept(p, resolve, ls);
      PopularAcceptSound(p, resolve, init);
      forall k | 0 <= k < |r| ensures PopularJustified(p, resolve, ls, r, k) {
        if k < |b| {
          assert r[..k] == b[..k] && r[k] == b[k];
          assert PopularJustified(p, resolve, init, b, k);
          var i :| 0 <= i < |init| && init[i].title != "" && resolve(init[i].title) == Some(b[k])
            && !Interacted(p, init[i].id) && !StoredSuggested(p, init[i].id) && !InBatch(b[..k], init[i].id);
          assert ls[i] == init[i];
        } else {
          assert l.title != "" && !Seen(p, b, l.id) && resolve(l.title) == Some(r[k]);
          assert r[..k] == b;
          assert ls[|ls| - 1] == l;
        }
      }
    }
  }

  /**
    While the batch has room, no titled listing with an unseen listing id
    that resolves is passed over: its record, or one with its listing id, is
    in the batch.
   */
  lemma {:induction false} PopularAcceptComplete(p: Profile, resolve: string -> Option<Movie>, ls: seq<Listing>)
    ensures |PopularAccept(p, resolve, ls)| < BATCH_QUOTA ==>
      forall i :: (0 <= i < |ls| && ls[i].title != "" && resolve(ls[i].title).Some?
                   && !Interacted(p, ls[i].id) && !StoredSuggested(p, ls[i].id)) ==>
          resolve(ls[i].title).value in PopularAccept(p, resolve, ls) || InBatch(PopularAccept(p, resolve, ls), ls[i].id)
  {
    if ls != [] {
      var init := ls[..|ls| - 1];
      var l := ls[|ls| - 1];
      var b := PopularAccept(p, resolve, init);
      var r := PopularAccept(p, resolve, ls);
      PopularAcceptComplete(p, resolve, init);
      assert |b| <= |r|;
      if |r| < BATCH_QUOTA {
        assert forall i :: 0 <= i < |init| ==> init[i] == ls[i];
        forall id | InBatch(b, id) ensures InBatch(r, id) {
          var k :| 0 <= k < |b| && b[k].id == id;
          assert r[k] == b[k];
        }
        forall x | x in b ensures x in r {
          var k :| 0 <= k < |b| && b[k] == x;
          assert r[k] == b[k];
        }
        if l.title != "" && resolve(l.title).Some? && !Interacted(p, l.id) && !StoredSuggested(p, l.id) && !InBatch(b, l.id) {
          assert r == b + [resolve(l.title).value];
          assert r[|b|] == resolve(l.title).value;
        }
      }
    }
  }

  /** Resolution by title keeps the listing's id. */
  ghost predicate IdPreserving(resolve: string -> Option<Movie>, ls: seq<Listing>)
  {
    forall i :: 0 <= i < |ls| && resolve(ls[i].title).Some? ==> resolve(ls[i].title).value.id == ls[i].id
  }

  /**
    When resolution keeps ids, the popularity batch has pairwise distinct ids,
    none of them interacted or stored as suggested.
   */
  lemma PopularAcceptFresh(p: Profile, resolve: string -> Option<Movie>, ls: seq<Listing>)
    requires IdPreserving(resolve, ls)
    ensures Unseen(p, PopularAccept(p, resolve, ls))
    ensures DistinctIds(PopularAccept(p, resolve, ls))
  {
    var r := PopularAccept(p, resolve, ls);
    PopularAcceptSound(p, resolve, ls);
    forall k' | 0 <= k' < |r|
      ensures !Interacted(p, r[k'].id) && !StoredSuggested(p, r[k'].id)
      ensures forall k :: 0 <= k < k' ==> r[k].id != r[k'].id
    {
      assert PopularJustified(p, resolve, ls, r, k');
      var i :| 0 <= i < |ls| && ls[i].title != "" && resolve(ls[i].title) == Some(r[k'])
        && !Interacted(p, ls[i].id) && !StoredSuggested(p, ls[i].id) && !InBatch(r[..k'], ls[i].id);
      assert r[k'].id == ls[i].id;
      forall k | 0 <= k < k' ensures r[k].id != r[k'].id {
        assert r[..k'][k] == r[k];
      }
    }
  }

  /**
    Without that assumption the batch can hold one movie twice: two listings
    with different ids whose titles both resolve to the same record.
   */
  lemma PopularDuplicateWhenResolutionMoves()
    ensures var m := Movie(7, "Remake", "", None, [], None, [], [], None);
      var r := PopularAccept(NewProfile("u"), (t: string) => Some(m), [Listing(1, "A"), Listing(2, "B")]);
      |r| == 2 && r[0] == m && r[1] == m
  {
    var m := Movie(7, "Remake", "", None, [], None, [], [], None);
    var resolve := (t: string) => Some(m);
    var p := NewProfile("u");
    var ls := [Listing(1, "A"), Listing(2, "B")];
    assert ls[..1] == [Listing(1, "A")];
    assert [Listing(1, "A")][..0] == [];
    var b1 := PopularAccept(p, resolve, ls[..1]);
    assert b1 == [m];
    assert !InBatch(b1, 2);
    assert !Seen(p, b1, 2);
  }

  /**
    Where the page loop stops: every page before page `n` was non-empty and
    left the batch short, and after page `n` the batch is full, page `n` is
    the last one tried, or page `n` is empty.
   */
  /** Page `k` was served and the batch still had room after it. */
  ghost predicate ShortAfter(p: Profile, popular: int -> seq<Listing>, resolve: string -> Option<Movie>, k: nat)
  {
    popular(k) != [] && |PopularAccept(p, resolve, Pages(popular, k))| < BATCH_QUOTA
  }

  /** Every page before page `n` was served and left the batch short. */
  ghost predicate ShortBefore(p: Profile, popular: int -> seq<Listing>, resolve: string -> Option<Movie>, n: nat)
  {
    n <= 1 || (ShortBefore(p, popular, resolve, n - 1) && ShortAfter(p, popular, resolve, n - 1))
  }

  lemma {:induction false} ShortBeforeAt(p: Profile, popular: int -> seq<Listing>, resolve: string -> Option<Movie>, n: nat, k: nat)
    requires ShortBefore(p, popular, resolve, n) && 1 <= k < n
    ensures ShortAfter(p, popular, resolve, k)
  {
    if k < n - 1 {
      ShortBeforeAt(p, popular, resolve, n - 1, k);
    }
  }

  ghost predicate PopularStop(p: Profile, popular: int -> seq<Listing>, resolve: string -> Option<Movie>, n: nat)
  {
    && 1 <= n < PAGE_LIMIT
    && ShortBefore(p, popular, resolve, n)
    && (|PopularAccept(p, resolve, Pages(popular, n))| >= BATCH_QUOTA || n == PAGE_LIMIT - 1 || popular(n) == [])
  }

  /** The loop has exactly one stopping point, so the pages it reads are determined by the pages TMDB serves. */
  lemma PopularStopUnique(p: Profile, popular: int -> seq<Listing>, resolve: string -> Option<Movie>, n: nat, m: nat)
    requires PopularStop(p, popular, resolve, n) && PopularStop(p, popular, resolve, m)
    ensures n == m
  {
    if n < m {
      ShortBeforeAt(p, popular, resolve, m, n);
    } else if m < n {
      ShortBeforeAt(p, popular, resolve, n, m);
    }
  }

  /**
    `fetchAndFilterPopularMovies`: reads pages 1, 2, ... while the batch has
    room and the page number is below 20, stopping at the first empty page.
   */
  method FetchAndFilterPopularMovies(p: Profile, popular: int -> seq<Listing>, resolve: string -> Option<Movie>)
    returns (batch: seq<Movie>, ghost pagesRead: nat)
    ensures PopularStop(p, popular, resolve, pagesRead)
    ensures batch == PopularAccept(p, resolve, Pages(popular, pagesRead))
  {
    batch := [];
    var page := 1;
    ghost var emptyPage := false;
    while |batch| < BATCH_QUOTA && page < PAGE_LIMIT
      invariant 1 <= page <= PAGE_LIMIT
      invariant batch == PopularAccept(p, resolve, Pages(popular, page - 1))
      invariant page - 1 >= 1 ==> popular(page - 1) != []
      invariant ShortBefore(p, popular, resolve, page - 1)
      invariant page == 1 ==> batch == []
      invariant !emptyPage
      decreases PAGE_LIMIT - page
    {
      var tmdbPopular := popular(page);
      if |tmdbPopular| == 0 {
        emptyPage := true;
        break;
      }
      batch := FilterPage(p, resolve, batch, tmdbPopular, Pages(popular, page - 1));
      page := page + 1;
    }
    if emptyPage {
      StopAtEmpty(p, popular, resolve, page);
      pagesRead := page;
    } else {
      StopAtGuard(p, popular, resolve, page);
      pagesRead := page - 1;
    }
  }

  /** The loop breaks on an empty page while the batch still has room. */
  lemma StopAtEmpty(p: Profile, popular: int -> seq<Listing>, resolve: string -> Option<Movie>, page: nat)
    requires 1 <= page < PAGE_LIMIT && popular(page) == []
    requires ShortBefore(p, popular, resolve, page - 1) && (page - 1 >= 1 ==> popular(page - 1) != [])
    requires |PopularAccept(p, resolve, Pages(popular, page - 1))| < BATCH_QUOTA
    ensures PopularStop(p, popular, resolve, page)
    ensures PopularAccept(p, resolve, Pages(popular, page)) == PopularAccept(p, resolve, Pages(popular, page - 1))
  {
    assert Pages(popular, page) == Pages(popular, page - 1);
  }

  /** The loop ends on its guard after reading page `page - 1`. */
  lemma StopAtGuard(p: Profile, popular: int -> seq<Listing>, resolve: string -> Option<Movie>, page: nat)
    requires 2 <= page <= PAGE_LIMIT
    requires ShortBefore(p, popular, resolve, page - 1) && popular(page - 1) != []
    requires |PopularAccept(p, resolve, Pages(popular, page - 1))| >= BATCH_QUOTA || page == PAGE_LIMIT
    ensures PopularStop(p, popular, resolve, page - 1)
  {
  }

  lemma SnocSlice<T>(a: seq<T>, b: seq<T>, j: nat)
    requires j < |b|
    ensures a + b[..j + 1] == (a + b[..j]) + [b[j]]
  {
    assert b[..j + 1] == b[..j] + [b[j]];
  }

  /** The inner `for (const movie of tmdbPopular)` loop over one page. */
  method FilterPage(p: Profile, resolve: string -> Option<Movie>, batch0: seq<Movie>, listings: seq<Listing>, ghost before: seq<Listing>)
    returns (batch: seq<Movie>)
    requires batch0 == PopularAccept(p, resolve, before)
    ensures batch == PopularAccept(p, resolve, before + listings)
  {
    batch := batch0;
    assert before + listings[..0] == before;
    for j := 0 to |listings|
      invariant batch == PopularAccept(p, resolve, before + listings[..j])
    {
      if |batch| >= BATCH_QUOTA {
        PopularFull(p, resolve, before + listings[..j], listings[j..]);
        assert before + listings[..j] + listings[j..] == before + listings;
        return;
      }
      var movie := listings[j];
      ghost var prev := batch;
      var isInteracted := Interacted(p, movie.id);
      var isAlreadySuggestedInDb := StoredSuggested(p, movie.id);
      var isAlreadyInCurrentBatch := InBatch(batch, movie.id);
      if movie.title != "" && !isInteracted && !isAlreadySuggestedInDb && !isAlreadyInCurrentBatch {
        var fullMovieDetails := resolve(movie.title);
        if fullMovieDetails.Some? {
          batch := batch + [fullMovieDetails.value];
        }
      }
      assert batch == PopularStep(p, resolve, prev, movie);
      SnocSlice(before, listings, j);
      PopularAcceptSnoc(p, resolve, before + listings[..j], movie);
    }
    assert listings[..|listings|] == listings;
  }

  // ---- the AI path ----

  /**
    One title of the AI loop: with room in the batch, the title is resolved
    and the record is appended when its RESOLVED id is unseen.
   */
  function AiStep(p: Profile, resolve: string -> Option<Movie>, batch: seq<Movie>, title: string): seq<Movie>
  {
    if |batch| >= BATCH_QUOTA then batch
    else
      match resolve(title)
      case None => batch
      case Some(m) => if !Seen(p, batch, m.id) then batch + [m] else batch
  }

  function AiAccept(p: Profile, resolve: string -> Option<Movie>, titles: seq<string>): seq<Movie>
  {
    if titles == [] then []
    else AiStep(p, resolve, AiAccept(p, resolve, titles[..|titles| - 1]), titles[|titles| - 1])
  }

  lemma AiAcceptSnoc(p: Profile, resolve: string -> Option<Movie>, titles: seq<string>, t: string)
    ensures AiAccept(p, resolve, titles + [t]) == AiStep(p, resolve, AiAccept(p, resolve, titles), t)
  {
    assert (titles + [t])[..|titles + [t]| - 1] == titles;
  }

  /**
    The AI batch holds at most 5 records, each found for one of the titles,
    with pairwise distinct ids, none interacted or stored as suggested.
   */
  lemma {:induction false} AiAcceptSound(p: Profile, resolve: string -> Option<Movie>, titles: seq<string>)
    ensures |AiAccept(p, resolve, titles)| <= BATCH_QUOTA
    ensures Unseen(p, AiAccept(p, resolve, titles))
    ensures DistinctIds(AiAccept(p, resolve, titles))
    ensures forall k :: 0 <= k < |AiAccept(p, resolve, titles)| ==>
      exists i :: 0 <= i < |titles| && resolve(titles[i]) == Some(AiAccept(p, resolve, titles)[k])
  {
    if titles != [] {
      var init := titles[..|titles| - 1];
      var b := AiAccept(p, resolve, init);
      var r := AiAccept(p, resolve, titles);
      AiAcceptSound(p, resolve, init);
      assert forall i :: 0 <= i < |init| ==> init[i] == titles[i];
      if |r| > |b| {
        var m := r[|b|];
        assert r == b + [m];
        assert resolve(titles[|titles| - 1]) == Some(m);
        assert !InBatch(b, m.id);
        assert forall k :: 0 <= k < |b| ==> b[k].id != m.id;
      }
    }
  }

  /**
    A short AI batch passed over no title: every title that resolves to a
    movie neither interacted nor stored as suggested has its id in the batch.
   */
  lemma {:induction false} AiAcceptComplete(p: Profile, resolve: string -> Option<Movie>, titles: seq<string>)
    ensures |AiAccept(p, resolve, titles)| < BATCH_QUOTA ==>
      forall i :: (0 <= i < |titles| && resolve(titles[i]).Some?
                   && !Interacted(p, resolve(titles[i]).value.id) && !StoredSuggested(p, resolve(titles[i]).value.id)) ==>
          InBatch(AiAccept(p, resolve, titles), resolve(titles[i]).value.id)
  {
    if titles != [] {
      var init := titles[..|titles| - 1];
      var t := titles[|titles| - 1];
      var b := AiAccept(p, resolve, init);
      var r := AiAccept(p, resolve, titles);
      AiAcceptComplete(p, resolve, init);
      if |r| < BATCH_QUOTA {
        assert forall i :: 0 <= i < |init| ==> init[i] == titles[i];
        assert |b| <= |r|;
        forall id | InBatch(b, id) ensures InBatch(r, id) {
          var k :| 0 <= k < |b| && b[k].id == id;
          assert r[k] == b[k];
        }
        if resolve(t).Some? && !Seen(p, b, resolve(t).value.id) {
          assert r[|b|] == resolve(t).value;
        }
      }
    }
  }

  /** The AI loop over the parsed titles. */
  method CollectAiSuggestions(p: Profile, resolve: string -> Option<Movie>, titles: seq<string>) returns (batch: seq<Movie>)
    ensures batch == AiAccept(p, resolve, titles)
  {
    batch := [];
    for j := 0 to |titles|
      invariant batch == AiAccept(p, resolve, titles[..j])
    {
      AiAcceptSnoc(p, resolve, titles[..j], titles[j]);
      assert titles[..j + 1] == titles[..j] + [titles[j]];
      if |batch| >= BATCH_QUOTA {
        AiFull(p, resolve, titles[..j], titles[j..]);
        assert titles[..j] + titles[j..] == titles;
        return;
      }
      var movieDetails := resolve(titles[j]);
      if movieDetails.Some? {
        var id := movieDetails.value.id;
        var isInteracted := Interacted(p, id);
        var isAlreadySuggestedInDb := StoredSuggested(p, id);
        var isAlreadyInCurrentBatch := InBatch(batch, id);
        if !isInteracted && !isAlreadySuggestedInDb && !isAlreadyInCurrentBatch {
          batch := batch + [movieDetails.value];
        }
      }
    }
    assert titles[..|titles|] == titles;
  }

  lemma {:induction false} AiFull(p: Profile, resolve: string -> Option<Movie>, titles: seq<string>, more: seq<string>)
    requires |AiAccept(p, resolve, titles)| >= BATCH_QUOTA
    ensures AiAccept(p, resolve, titles + more) == AiAccept(p, resolve, titles)
  {
    if more != [] {
      var init := more[..|more| - 1];
      AiFull(p, resolve, titles, init);
      assert titles + more == (titles + init) + [more[|more| - 1]];
      AiAcceptSnoc(p, resolve, titles + init, more[|more| - 1]);
    } else {
      assert titles + more == titles;
    }
  }

  // ---- assembly ----

  /**
    What `/suggest` may answer for profile `p`: at most 5 records; the AI
    batch for the parsed reply when Gemini answers the prompt; otherwise the
    popularity batch after some number of pages below 20.
   */
  ghost predicate BatchFor(p: Profile, popular: int -> seq<Listing>, resolve: string -> Option<Movie>,
                           gemini: string -> Option<string>, batch: seq<Movie>)
  {
    && |batch| <= BATCH_QUOTA
    && (gemini(PromptFor(p)).Some? ==> batch == AiAccept(p, resolve, ParseTitles(gemini(PromptFor(p)).value)))
    && (gemini(PromptFor(p)).None? ==>
          exists n :: PopularStop(p, popular, resolve, n) && batch == PopularAccept(p, resolve, Pages(popular, n)))
  }

  /**
    The batch for a profile: the cold-start branch below the interaction
    threshold, otherwise the AI path, falling back to the popularity path
    when the Gemini call throws. A short AI batch is not topped up.
   */
  method AssembleBatch(p: Profile, popular: int -> seq<Listing>, resolve: string -> Option<Movie>, gemini: string -> Option<string>)
    returns (batch: seq<Movie>)
    ensures BatchFor(p, popular, resolve, gemini, batch)
  {
    if |p.interactions| < INTERACTION_THRESHOLD {
      ghost var n;
      batch, n := FetchAndFilterPopularMovies(p, popular, resolve);
      PopularAcceptBound(p, resolve, Pages(popular, n));
    } else {
      var prompt := PromptFor(p);
      var reply := gemini(prompt);
      if reply.Some? {
        var suggestedTitles := ParseTitles(reply.value);
        batch := CollectAiSuggestions(p, resolve, suggestedTitles);
        AiAcceptSound(p, resolve, suggestedTitles);
      } else {
        ghost var n;
        batch, n := FetchAndFilterPopularMovies(p, popular, resolve);
        PopularAcceptBound(p, resolve, Pages(popular, n));
      }
    }
  }

  /** The `{ movieId, movieTitle }` records of the accepted movies, in acceptance order. */
  function SuggestedRecords(batch: seq<Movie>): (r: seq<SuggestedMovie>)
    ensures |r| == |batch|
    ensures forall k :: 0 <= k < |batch| ==> r[k] == SuggestedMovie(batch[k].id, batch[k].title)
  {
    if batch == [] then [] else [SuggestedMovie(batch[0].id, batch[0].title)] + SuggestedRecords(batch[1..])
  }

  /** The stored suggestions followed by the batch's records. */
  function WithSuggestions(p: Profile, batch: seq<Movie>): (r: Profile)
    ensures |r.suggestedMovies| == |p.suggestedMovies| + |batch|
    ensures r.suggestedMovies[..|p.suggestedMovies|] == p.suggestedMovies
    ensures r.suggestedMovies[|p.suggestedMovies|..] == SuggestedRecords(batch)
    ensures r.(suggestedMovies := p.suggestedMovies) == p
  {
    p.(suggestedMovies := p.suggestedMovies + SuggestedRecords(batch))
  }

  /** The profile `/suggest` works on: the stored one, or the new empty one `findOrCreate` inserts. */
  function ProfileFor(profiles: map<string, Profile>, userId: string): Profile
  {
    if userId in profiles then profiles[userId] else NewProfile(userId)
  }

  /**
    The write at the end of `/suggest`: when the batch is non-empty, the
    stored suggestions followed by the batch's records replace the list;
    otherwise nothing is written.
   */
  method RecordSuggestions(store: Store, userId: string, userProfile: Profile, newSuggestions: seq<Movie>)
    requires store.Valid() && userId in store.profiles && store.profiles[userId] == userProfile
    modifies store
    ensures store.Valid()
    ensures store.profiles == old(store.profiles)[userId := WithSuggestions(userProfile, newSuggestions)]
  {
    var suggestedMoviesWithTitles := SuggestedRecords(newSuggestions);
    if |suggestedMoviesWithTitles| > 0 {
      var allSuggestedMovies := userProfile.suggestedMovies + suggestedMoviesWithTitles;
      var _ := store.UpdateSuggestedMovies(userId, allSuggestedMovies);
    } else {
      assert WithSuggestions(userProfile, newSuggestions) == userProfile;
      assert store.profiles == store.profiles[userId := userProfile];
    }
  }

  /** Writing a key twice keeps only the second write. */
  lemma UpdateTwice<K, V>(m: map<K, V>, k: K, a: V, b: V)
    ensures m[k := a][k := b] == m[k := b]
  {
  }

  /**
    `/suggest`: 400 without a user id; otherwise find or create the profile,
    assemble the batch, append its records to `suggestedMovies` when it is
    non-empty, and answer with the batch.
   */
  method Suggest(store: Store, userId: string, popular: int -> seq<Listing>, resolve: string -> Option<Movie>, gemini: string -> Option<string>)
    returns (resp: Response, ghost p: Profile)
    requires store.Valid()
    modifies store
    ensures store.Valid()
    ensures userId == "" ==> resp == Response(400, Error("Missing userId")) && store.profiles == old(store.profiles)
    ensures userId != "" ==> p == ProfileFor(old(store.profiles), userId)
    ensures userId != "" ==> resp.status == 200 && resp.body.Movies?
    ensures userId != "" && resp.body.Movies? ==> BatchFor(p, popular, resolve, gemini, resp.body.movies)
    ensures userId != "" && resp.body.Movies? ==> store.profiles == old(store.profiles)[userId := WithSuggestions(p, resp.body.movies)]
  {
    if userId == "" {
      return Response(400, Error("Missing userId")), NewProfile(userId);
    }
    ghost var before := store.profiles;
    var userProfile := store.FindOrCreate(userId);
    p := userProfile;
    assert p == ProfileFor(before, userId);
    var newSuggestions := AssembleBatch(userProfile, popular, resolve, gemini);
    RecordSuggestions(store, userId, userProfile, newSuggestions);
    UpdateTwice(before, userId, userProfile, WithSuggestions(p, newSuggestions));
    resp := Response(200, Movies(newSuggestions));
  }
}
