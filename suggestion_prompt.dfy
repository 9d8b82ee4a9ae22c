/**
  The pure parts of the AI path of `/suggest` in backend/routes/movieRoutes.js:
  ranking the liked and disliked genres, the excluded-title list, the prompt
  text, and parsing the model's reply into titles.
 */
module SuggestionPrompt {
  import opened Wrappers
  import opened Sorting
  import opened ScoreMap
  import opened Text
  import opened Profiles

  predicate Positive(score: int) { score > 0 }
  predicate Negative(score: int) { score < 0 }

  /** `Object.entries(genres).filter(keep).sort(by score in order o).map(([g]) => g)`. */
  function Ranked(genres: Scores, keep: int -> bool, o: Order): seq<string>
  {
    Keys(Sort(Filter(genres, keep), Score, o))
  }

  function LikedGenres(genres: Scores): seq<string>
  {
    Ranked(genres, Positive, Descending)
  }

  function DislikedGenres(genres: Scores): seq<string>
  {
    Ranked(genres, Negative, Ascending)
  }

  /** Each ranked genre carries the score the table gives it. */
  lemma RankedScores(genres: Scores, keep: int -> bool, o: Order)
    requires DistinctKeys(genres)
    ensures var s := Sort(Filter(genres, keep), Score, o);
      |Ranked(genres, keep, o)| == |s| &&
      forall i :: 0 <= i < |s| ==>
        s[i] == Entry(Ranked(genres, keep, o)[i], Get(genres, Ranked(genres, keep, o)[i])) && Has(genres, s[i].key) && keep(s[i].score)
  {
    var s := Sort(Filter(genres, keep), Score, o);
    RankedEntries(genres, keep, o);
    forall i | 0 <= i < |s|
      ensures Has(genres, s[i].key) && Get(genres, s[i].key) == s[i].score && keep(s[i].score)
    {
      assert s[i] in s;
      EntryIn(genres, s[i].key, s[i].score);
    }
  }

  /**
    On a table with distinct keys, the ranked list holds each kept genre
    exactly once, and its scores follow the order.
   */
  lemma RankedSound(genres: Scores, keep: int -> bool, o: Order)
    requires DistinctKeys(genres)
    ensures forall g :: g in Ranked(genres, keep, o) <==> Has(genres, g) && keep(Get(genres, g))
    ensures Distinct(Ranked(genres, keep, o))
    ensures forall i, j :: 0 <= i < j < |Ranked(genres, keep, o)| ==>
      !Precedes(o, Get(genres, Ranked(genres, keep, o)[j]), Get(genres, Ranked(genres, keep, o)[i]))
  {
    RankedMembers(genres, keep, o);
    RankedScores(genres, keep, o);
    RankedEntries(genres, keep, o);
  }

  lemma RankedMembers(genres: Scores, keep: int -> bool, o: Order)
    requires DistinctKeys(genres)
    ensures forall g :: g in Ranked(genres, keep, o) <==> Has(genres, g) && keep(Get(genres, g))
  {
    var s := Sort(Filter(genres, keep), Score, o);
    var r := Ranked(genres, keep, o);
    RankedEntries(genres, keep, o);
    RankedScores(genres, keep, o);
    forall g | Has(genres, g) && keep(Get(genres, g)) ensures g in r {
      EntryIn(genres, g, Get(genres, g));
      assert Entry(g, Get(genres, g)) in s;
      var i :| 0 <= i < |s| && s[i] == Entry(g, Get(genres, g));
      assert r[i] == g;
    }
  }

  /** The sorted entries are the kept entries of the table, each once, in order. */
  lemma RankedEntries(genres: Scores, keep: int -> bool, o: Order)
    requires DistinctKeys(genres)
    ensures var s := Sort(Filter(genres, keep), Score, o);
      (forall e :: e in s <==> e in genres && keep(e.score)) && Distinct(s) && SortedBy(s, Score, o)
  {
    var f := Filter(genres, keep);
    var s := Sort(f, Score, o);
    DistinctKeysDistinct(f);
    PermutationDistinct(f, s);
    forall e ensures e in s <==> e in f {
      assert e in s <==> e in multiset(s);
      assert e in f <==> e in multiset(f);
    }
  }

  /** Liked genres: those scoring above 0, highest score first, each once. */
  lemma LikedGenresRanked(genres: Scores)
    requires DistinctKeys(genres)
    ensures forall g :: g in LikedGenres(genres) <==> Has(genres, g) && Get(genres, g) > 0
    ensures Distinct(LikedGenres(genres))
    ensures forall i, j :: 0 <= i < j < |LikedGenres(genres)| ==>
      Get(genres, LikedGenres(genres)[i]) >= Get(genres, LikedGenres(genres)[j])
  {
    RankedSound(genres, Positive, Descending);
  }

  /** Disliked genres: those scoring below 0, lowest score first, each once. */
  lemma DislikedGenresRanked(genres: Scores)
    requires DistinctKeys(genres)
    ensures forall g :: g in DislikedGenres(genres) <==> Has(genres, g) && Get(genres, g) < 0
    ensures Distinct(DislikedGenres(genres))
    ensures forall i, j :: 0 <= i < j < |DislikedGenres(genres)| ==>
      Get(genres, DislikedGenres(genres)[i]) <= Get(genres, DislikedGenres(genres)[j])
  {
    RankedSound(genres, Negative, Ascending);
  }

  /** A genre scoring exactly 0 is in neither list. */
  lemma ZeroScoreUnranked(genres: Scores, g: string)
    requires DistinctKeys(genres) && Get(genres, g) == 0
    ensures g !in LikedGenres(genres) && g !in DislikedGenres(genres)
  {
    LikedGenresRanked(genres);
    DislikedGenresRanked(genres);
  }

  /** `[...new Set(xs)]`: the first occurrence of each title, in order. */
  function Unique(xs: seq<string>): (r: seq<string>)
    ensures forall t :: t in r <==> t in xs
    ensures Distinct(r)
  {
    if xs == [] then []
    else
      var init := xs[..|xs| - 1];
      var u := Unique(init);
      assert xs == init + [xs[|xs| - 1]];
      if xs[|xs| - 1] in u then u else u + [xs[|xs| - 1]]
  }

  /** The index of the first occurrence of `t` in `xs`. */
  function FirstIndex(xs: seq<string>, t: string): (i: nat)
    requires t in xs
    ensures i < |xs| && xs[i] == t && t !in xs[..i]
  {
    if xs[0] == t then 0
    else
      var i := FirstIndex(xs[1..], t);
      assert xs[..i + 1] == [xs[0]] + xs[1..][..i];
      i + 1
  }

  lemma FirstIndexPrefix(xs: seq<string>, ys: seq<string>, t: string)
    requires t in xs
    ensures t in xs + ys && FirstIndex(xs + ys, t) == FirstIndex(xs, t)
  {
    var i := FirstIndex(xs, t);
    var j := FirstIndex(xs + ys, t);
    assert (xs + ys)[i] == t;
    assert (xs + ys)[..j] == xs[..j] by { assert j <= i; }
  }

  /** The unique titles keep the order in which they first occur. */
  lemma {:induction false} UniqueKeepsFirstOrder(xs: seq<string>)
    ensures forall i, j :: 0 <= i < j < |Unique(xs)| ==>
      FirstIndex(xs, Unique(xs)[i]) < FirstIndex(xs, Unique(xs)[j])
  {
    if xs != [] {
      var init := xs[..|xs| - 1];
      var last := xs[|xs| - 1];
      var u := Unique(init);
      UniqueKeepsFirstOrder(init);
      assert xs == init + [last];
      forall t | t in init ensures FirstIndex(xs, t) == FirstIndex(init, t) {
        FirstIndexPrefix(init, [last], t);
      }
      if last !in u {
        assert last !in init;
        assert FirstIndex(xs, last) == |xs| - 1;
      }
    }
  }

  function InteractedTitles(xs: seq<Interaction>): seq<string>
  {
    if xs == [] then []
    else
      var t := if xs[0].movieDetails.Some? then xs[0].movieDetails.value.title else "";
      (if t != "" then [t] else []) + InteractedTitles(xs[1..])
  }

  function SuggestedTitles(ss: seq<SuggestedMovie>): seq<string>
  {
    if ss == [] then []
    else (if ss[0].movieTitle != "" then [ss[0].movieTitle] else []) + SuggestedTitles(ss[1..])
  }

  /** The interaction titles and the stored suggestion titles, empties dropped, first occurrences kept. */
  function ExcludedTitles(p: Profile): seq<string>
  {
    Unique(InteractedTitles(p.interactions) + SuggestedTitles(p.suggestedMovies))
  }

  lemma {:induction false} InteractedTitlesIn(xs: seq<Interaction>, t: string)
    ensures t in InteractedTitles(xs) <==>
      t != "" && exists i :: 0 <= i < |xs| && xs[i].movieDetails.Some? && xs[i].movieDetails.value.title == t
  {
    if xs != [] {
      InteractedTitlesIn(xs[1..], t);
      assert forall i :: 0 < i < |xs| ==> xs[i] == xs[1..][i - 1];
      if t in InteractedTitles(xs[1..]) {
        var i :| 0 <= i < |xs[1..]| && xs[1..][i].movieDetails.Some? && xs[1..][i].movieDetails.value.title == t;
        assert xs[i + 1] == xs[1..][i];
      }
    }
  }

  lemma {:induction false} SuggestedTitlesIn(ss: seq<SuggestedMovie>, t: string)
    ensures t in SuggestedTitles(ss) <==> t != "" && exists i :: 0 <= i < |ss| && ss[i].movieTitle == t
  {
    if ss != [] {
      SuggestedTitlesIn(ss[1..], t);
      assert forall i :: 0 < i < |ss| ==> ss[i] == ss[1..][i - 1];
      if t in SuggestedTitles(ss[1..]) {
        var i :| 0 <= i < |ss[1..]| && ss[1..][i].movieTitle == t;
        assert ss[i + 1] == ss[1..][i];
      }
    }
  }

  /**
    A title is excluded exactly when it is the non-empty title of an interacted
    movie or of a stored suggestion; none is listed twice, and interacted
    titles come first, each where it first occurs.
   */
  lemma ExcludedTitlesSound(p: Profile)
    ensures forall t :: t in ExcludedTitles(p) <==> (t != "" &&
      ((exists i :: 0 <= i < |p.interactions| && p.interactions[i].movieDetails.Some?
          && p.interactions[i].movieDetails.value.title == t)
       || (exists i :: 0 <= i < |p.suggestedMovies| && p.suggestedMovies[i].movieTitle == t)))
    ensures Distinct(ExcludedTitles(p))
    ensures var all := InteractedTitles(p.interactions) + SuggestedTitles(p.suggestedMovies);
      forall i, j :: 0 <= i < j < |ExcludedTitles(p)| ==> FirstIndex(all, ExcludedTitles(p)[i]) < FirstIndex(all, ExcludedTitles(p)[j])
  {
    forall t
      ensures t in ExcludedTitles(p) <==> (t != "" &&
        ((exists i :: 0 <= i < |p.interactions| && p.interactions[i].movieDetails.Some?
            && p.interactions[i].movieDetails.value.title == t)
         || (exists i :: 0 <= i < |p.suggestedMovies| && p.suggestedMovies[i].movieTitle == t)))
    {
      InteractedTitlesIn(p.interactions, t);
      SuggestedTitlesIn(p.suggestedMovies, t);
    }
    UniqueKeepsFirstOrder(InteractedTitles(p.interactions) + SuggestedTitles(p.suggestedMovies));
  }

  const PROMPT_HEAD := "Suggest 20 movies."
  const LIKES_INTRO := " The user likes movies in genres such as "
  const DISLIKES_INTRO := " The user dislikes movies in genres such as "
  const EXCLUDE_INTRO := " DO NOT suggest any of the following movies: "
  const PROMPT_TAIL := " Provide only the movie titles, one per line."

  /** A clause `intro + items.join(', ') + '.'`, present only for a non-empty list. */
  function Clause(intro: string, items: seq<string>): string
  {
    if items == [] then "" else intro + Join(items, ", ") + "."
  }

  /** The prompt, built by appending the clauses in this order. */
  function PromptText(liked: seq<string>, disliked: seq<string>, excluded: seq<string>): string
  {
    PROMPT_HEAD + Clause(LIKES_INTRO, liked) + Clause(DISLIKES_INTRO, disliked)
      + Clause(EXCLUDE_INTRO, excluded) + PROMPT_TAIL
  }

  /** The prompt for a profile. */
  function PromptFor(p: Profile): string
  {
    PromptText(LikedGenres(p.tasteProfile.genres), DislikedGenres(p.tasteProfile.genres), ExcludedTitles(p))
  }

  predicate StartsWith(s: string, prefix: string)
  {
    |prefix| <= |s| && s[..|prefix|] == prefix
  }

  predicate EndsWith(s: string, suffix: string)
  {
    |suffix| <= |s| && s[|s| - |suffix|..] == suffix
  }

  /** The parts of a five-part concatenation sit where they were appended. */
  lemma Concat5(h: string, c1: string, c2: string, c3: string, t: string)
    ensures var s := h + c1 + c2 + c3 + t;
      StartsWith(s, h) && EndsWith(s, t)
      && s[|h|..] == c1 + (c2 + c3 + t)
      && s[|h + c1 + c2|..] == c3 + t
  {
    var s := h + c1 + c2 + c3 + t;
    assert s == h + (c1 + (c2 + c3 + t));
    assert s == (h + c1 + c2) + (c3 + t);
  }

  /** The middle part of a five-part concatenation starts after the first two. */
  lemma Concat5Middle(h: string, c1: string, c2: string, c3: string, t: string)
    ensures (h + c1 + c2 + c3 + t)[|h + c1|..] == c2 + (c3 + t)
  {
    assert h + c1 + c2 + c3 + t == (h + c1) + (c2 + (c3 + t));
  }

  /** A string whose `k`-th character differs from the prefix's does not start with it. */
  lemma DiffersAt(s: string, prefix: string, k: nat)
    requires k < |prefix| && k < |s| && s[k] != prefix[k]
    ensures !StartsWith(s, prefix)
  {
    if |prefix| <= |s| {
      assert s[..|prefix|][k] == s[k];
    }
  }

  /** Every prompt opens with the request for 20 movies and closes with the format instruction. */
  lemma PromptFrame(liked: seq<string>, disliked: seq<string>, excluded: seq<string>)
    ensures StartsWith(PromptText(liked, disliked, excluded), PROMPT_HEAD)
    ensures EndsWith(PromptText(liked, disliked, excluded), PROMPT_TAIL)
  {
    Concat5(PROMPT_HEAD, Clause(LIKES_INTRO, liked), Clause(DISLIKES_INTRO, disliked), Clause(EXCLUDE_INTRO, excluded), PROMPT_TAIL);
  }

  /** With no preferences and nothing to exclude, the prompt is just the head and the tail. */
  lemma PromptBare()
    ensures PromptText([], [], []) == PROMPT_HEAD + PROMPT_TAIL
  {
  }

  /** A clause for a non-empty list starts with its introduction. */
  lemma ClauseStarts(intro: string, items: seq<string>, rest: string)
    requires items != []
    ensures StartsWith(Clause(intro, items) + rest, intro)
  {
    var tail := Join(items, ", ") + ".";
    assert Clause(intro, items) + rest == intro + (tail + rest);
    assert (intro + (tail + rest))[..|intro|] == intro;
  }

  /** A clause is present at the front of `clause + rest` exactly when its list is non-empty. */
  lemma ClauseIff(intro: string, items: seq<string>, rest: string, k: nat)
    requires k < |intro| && k < |rest| && rest[k] != intro[k]
    ensures StartsWith(Clause(intro, items) + rest, intro) <==> items != []
  {
    if items != [] {
      ClauseStarts(intro, items, rest);
    } else {
      assert Clause(intro, items) + rest == rest;
      DiffersAt(rest, intro, k);
    }
  }

  lemma CharOf(s: string, prefix: string, k: nat)
    requires StartsWith(s, prefix) && k < |prefix|
    ensures k < |s| && s[k] == prefix[k]
  {
    assert s[..|prefix|][k] == s[k];
  }

  /** What follows the likes clause never has the likes introduction's character at position 10. */
  lemma AfterLikes(disliked: seq<string>, excluded: seq<string>)
    ensures var after := Clause(DISLIKES_INTRO, disliked) + Clause(EXCLUDE_INTRO, excluded) + PROMPT_TAIL;
      10 < |after| && after[10] != LIKES_INTRO[10]
  {
    var c2, c3 := Clause(DISLIKES_INTRO, disliked), Clause(EXCLUDE_INTRO, excluded);
    var after := c2 + c3 + PROMPT_TAIL;
    assert after == c2 + (c3 + PROMPT_TAIL);
    assert LIKES_INTRO[10] == 'l';
    if disliked != [] {
      ClauseStarts(DISLIKES_INTRO, disliked, c3 + PROMPT_TAIL);
      CharOf(after, DISLIKES_INTRO, 10);
    } else if excluded != [] {
      ClauseStarts(EXCLUDE_INTRO, excluded, PROMPT_TAIL);
      CharOf(c3 + PROMPT_TAIL, EXCLUDE_INTRO, 10);
    } else {
      assert after == PROMPT_TAIL;
    }
  }

  /** The likes clause follows the head exactly when some genre is liked. */
  lemma PromptLikesClause(liked: seq<string>, disliked: seq<string>, excluded: seq<string>)
    ensures StartsWith(PromptText(liked, disliked, excluded)[|PROMPT_HEAD|..], LIKES_INTRO) <==> liked != []
  {
    var c1, c2, c3 := Clause(LIKES_INTRO, liked), Clause(DISLIKES_INTRO, disliked), Clause(EXCLUDE_INTRO, excluded);
    Concat5(PROMPT_HEAD, c1, c2, c3, PROMPT_TAIL);
    AfterLikes(disliked, excluded);
    ClauseIff(LIKES_INTRO, liked, c2 + c3 + PROMPT_TAIL, 10);
  }

  /** What follows the dislikes clause never has the dislikes introduction's character at position 10. */
  lemma AfterDislikes(excluded: seq<string>)
    ensures var after := Clause(EXCLUDE_INTRO, excluded) + PROMPT_TAIL;
      10 < |after| && after[10] != DISLIKES_INTRO[10]
  {
    var c3 := Clause(EXCLUDE_INTRO, excluded);
    assert DISLIKES_INTRO[10] == 'd';
    if excluded != [] {
      ClauseStarts(EXCLUDE_INTRO, excluded, PROMPT_TAIL);
      CharOf(c3 + PROMPT_TAIL, EXCLUDE_INTRO, 10);
    } else {
      assert c3 + PROMPT_TAIL == PROMPT_TAIL;
    }
  }

  /** The dislikes clause follows the likes clause exactly when some genre is disliked. */
  lemma PromptDislikesClause(liked: seq<string>, disliked: seq<string>, excluded: seq<string>)
    ensures var prefix := PROMPT_HEAD + Clause(LIKES_INTRO, liked);
      StartsWith(PromptText(liked, disliked, excluded)[|prefix|..], DISLIKES_INTRO) <==> disliked != []
  {
    var c1, c2, c3 := Clause(LIKES_INTRO, liked), Clause(DISLIKES_INTRO, disliked), Clause(EXCLUDE_INTRO, excluded);
    Concat5Middle(PROMPT_HEAD, c1, c2, c3, PROMPT_TAIL);
    AfterDislikes(excluded);
    ClauseIff(DISLIKES_INTRO, disliked, c3 + PROMPT_TAIL, 10);
  }

  /** The exclusion clause is present exactly when some title is excluded. */
  lemma PromptExclusionClause(liked: seq<string>, disliked: seq<string>, excluded: seq<string>)
    ensures var prefix := PROMPT_HEAD + Clause(LIKES_INTRO, liked) + Clause(DISLIKES_INTRO, disliked);
      StartsWith(PromptText(liked, disliked, excluded)[|prefix|..], EXCLUDE_INTRO) <==> excluded != []
  {
    var c1, c2, c3 := Clause(LIKES_INTRO, liked), Clause(DISLIKES_INTRO, disliked), Clause(EXCLUDE_INTRO, excluded);
    Concat5(PROMPT_HEAD, c1, c2, c3, PROMPT_TAIL);
    AfterExclusion();
    ClauseIff(EXCLUDE_INTRO, excluded, PROMPT_TAIL, 1);
  }

  lemma AfterExclusion()
    ensures 1 < |PROMPT_TAIL| && 1 < |EXCLUDE_INTRO| && PROMPT_TAIL[1] != EXCLUDE_INTRO[1]
  {
    assert PROMPT_TAIL[1] == 'P' && EXCLUDE_INTRO[1] == 'D';
  }

  /** `lines.map(f)`. */
  function MapLines(lines: seq<string>, f: string -> string): (r: seq<string>)
    ensures |r| == |lines| && forall i :: 0 <= i < |lines| ==> r[i] == f(lines[i])
  {
    if lines == [] then [] else [f(lines[0])] + MapLines(lines[1..], f)
  }

  function TrimAll(lines: seq<string>): (r: seq<string>)
    ensures |r| == |lines| && forall i :: 0 <= i < |lines| ==> r[i] == Trim(lines[i])
  {
    MapLines(lines, Trim)
  }

  function NonEmpty(xs: seq<string>): (r: seq<string>)
    ensures forall t :: t in r <==> t in xs && t != ""
  {
    if xs == [] then []
    else
      assert forall t :: t in xs <==> t == xs[0] || t in xs[1..];
      (if xs[0] != "" then [xs[0]] else []) + NonEmpty(xs[1..])
  }

  /** `text.split('\n').map(t => t.trim()).filter(t => t.length > 0)`. */
  function ParseTitles(text: string): seq<string>
  {
    NonEmpty(TrimAll(Split(text, '\n')))
  }

  /** Every parsed title is non-empty, already trimmed, and the trimmed form of one reply line. */
  lemma ParseTitlesWellFormed(text: string)
    ensures forall t :: t in ParseTitles(text) ==>
      t != "" && Trim(t) == t && exists line :: line in Split(text, '\n') && Trim(line) == t
  {
    var lines := Split(text, '\n');
    forall t | t in ParseTitles(text)
      ensures t != "" && Trim(t) == t && exists line :: line in lines && Trim(line) == t
    {
      var i :| 0 <= i < |lines| && TrimAll(lines)[i] == t;
      TrimIdempotent(lines[i]);
      assert lines[i] in lines;
    }
  }

  /** `filter` keeps order and multiplicity: filtering a concatenation filters each part. */
  lemma {:induction false} NonEmptyConcat(xs: seq<string>, ys: seq<string>)
    ensures NonEmpty(xs + ys) == NonEmpty(xs) + NonEmpty(ys)
  {
    if xs == [] {
      assert xs + ys == ys;
    } else {
      assert (xs + ys)[0] == xs[0] && (xs + ys)[1..] == xs[1..] + ys;
      NonEmptyConcat(xs[1..], ys);
    }
  }

  /** A single line is kept exactly when it is non-empty. */
  lemma NonEmptySingle(t: string)
    ensures NonEmpty([t]) == if t != "" then [t] else []
  {
    assert [t][1..] == [];
  }

  lemma {:induction false} NonEmptyAll(xs: seq<string>)
    requires forall i :: 0 <= i < |xs| ==> xs[i] != ""
    ensures NonEmpty(xs) == xs
  {
    if xs != [] {
      NonEmptyAll(xs[1..]);
    }
  }

  /**
    A reply listing well-formed titles one per line parses back to exactly
    those titles, in the same order.
   */
  lemma ParseTitlesRoundTrip(titles: seq<string>)
    requires forall i :: 0 <= i < |titles| ==> titles[i] != "" && '\n' !in titles[i] && Trim(titles[i]) == titles[i]
    ensures ParseTitles(Join(titles, "\n")) == titles
  {
    if titles == [] {
      ParseTitlesEmpty();
    } else {
      var text := Join(titles, "\n");
      SplitJoin(titles, '\n');
      assert Split(text, '\n') == titles;
      TrimAllTrimmed(titles);
      NonEmptyAll(titles);
      assert ParseTitles(text) == NonEmpty(TrimAll(titles));
    }
  }

  /** An empty reply holds no title. */
  lemma ParseTitlesEmpty()
    ensures ParseTitles("") == []
  {
    assert Split("", '\n') == [""];
    assert Trim("") == "";
    assert TrimAll([""]) == [""];
  }

  lemma TrimAllTrimmed(lines: seq<string>)
    requires forall i :: 0 <= i < |lines| ==> Trim(lines[i]) == lines[i]
    ensures TrimAll(lines) == lines
  {
    var trimmed := TrimAll(lines);
    assert |trimmed| == |lines| && forall i :: 0 <= i < |lines| ==> trimmed[i] == lines[i];
  }
}
