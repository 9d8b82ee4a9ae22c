/**
  `MovieSwipePage` of frontend/src/App.js: the hotkey mapping of
  `handleKeyDown` and the swipe that advances the deck. The page keeps the
  same `movies`/`currentIndex` state as `MovieContext.Deck`, and its
  `fetchMovies` and `handleUndo` are the deck's transitions of the same
  names; its `handleInteraction` differs in advancing from the current
  index rather than from an index passed in.
 */
module SwipePage {
  import opened Wrappers
  import opened Profiles
  import opened MovieContext

  /** What one key press does. */
  datatype Command = Ignore | Undo | Rate(action: string)

  const ARROW_LEFT := "ArrowLeft"
  const ARROW_RIGHT := "ArrowRight"
  const ARROW_UP := "ArrowUp"
  const ARROW_DOWN := "ArrowDown"
  const SPACE := " "
  const SHIFT := "Shift"

  /** The rating keys of the `switch (event.key)`. */
  function KeyAction(key: string): (a: Option<string>)
  {
    if key == ARROW_LEFT then Some(DISLIKE)
    else if key == ARROW_RIGHT then Some(LIKE)
    else if key == ARROW_UP then Some(STRONG_LIKE)
    else if key == ARROW_DOWN then Some(STRONG_DISLIKE)
    else if key == SPACE then Some(WATCHLIST)
    else if key == SHIFT then Some(NOT_INTERESTED)
    else None
  }

  /** The key that rates with `action`, if any: the reference table of the hotkeys. */
  function KeyFor(action: string): (k: Option<string>)
  {
    if action == DISLIKE then Some(ARROW_LEFT)
    else if action == LIKE then Some(ARROW_RIGHT)
    else if action == STRONG_LIKE then Some(ARROW_UP)
    else if action == STRONG_DISLIKE then Some(ARROW_DOWN)
    else if action == WATCHLIST then Some(SPACE)
    else if action == NOT_INTERESTED then Some(SHIFT)
    else None
  }

  /** The six interaction types the backend knows. */
  predicate IsKind(action: string)
  {
    action == LIKE || action == STRONG_LIKE || action == DISLIKE
    || action == STRONG_DISLIKE || action == WATCHLIST || action == NOT_INTERESTED
  }

  /** `handleKeyDown`: nothing without a current card, Ctrl/Meta+z undoes, the six rating keys rate. */
  function KeyCommand(key: string, ctrl: bool, meta: bool, hasCurrent: bool): (c: Command)
    ensures !hasCurrent ==> c == Ignore
    ensures c.Rate? ==> IsKind(c.action)
  {
    if !hasCurrent then Ignore
    else if (ctrl || meta) && key == "z" then Undo
    else match KeyAction(key)
      case Some(a) => Rate(a)
      case None => Ignore
  }

  /** The rating keys and the hotkey table agree in both directions. */
  lemma KeyTable(key: string, action: string)
    ensures KeyAction(key) == Some(action) <==> KeyFor(action) == Some(key)
  {
  }

  /** Every interaction type has exactly one key, and only interaction types have one. */
  lemma KeyForKinds(action: string)
    ensures KeyFor(action).Some? <==> IsKind(action)
    ensures KeyFor(action).Some? ==> KeyAction(KeyFor(action).value) == Some(action)
  {
  }

  /** Ctrl/Meta+z undoes, and is the only thing that does. */
  lemma UndoKey(key: string, ctrl: bool, meta: bool, hasCurrent: bool)
    ensures KeyCommand(key, ctrl, meta, hasCurrent) == Undo <==> hasCurrent && (ctrl || meta) && key == "z"
  {
  }

  /**
    A key rates with `action` exactly when a card is shown, it is not the
    undo chord, and it is that action's hotkey; modifiers do not stop a
    rating key.
   */
  lemma RateKey(key: string, ctrl: bool, meta: bool, hasCurrent: bool, action: string)
    ensures KeyCommand(key, ctrl, meta, hasCurrent) == Rate(action) <==>
      hasCurrent && KeyFor(action) == Some(key)
  {
    KeyTable(key, action);
  }

  /** Any key that is neither a rating key nor the undo chord is ignored. */
  lemma OtherKeysIgnored(key: string, ctrl: bool, meta: bool, hasCurrent: bool)
    requires KeyAction(key) == None && !((ctrl || meta) && key == "z")
    ensures KeyCommand(key, ctrl, meta, hasCurrent) == Ignore
  {
  }

  /**
    The page's `handleInteraction` once the interaction has been recorded
    (or failed to be): the card after the current one becomes current, or a
    refetch is asked for when the deck is exhausted.
   */
  method SwipeInteraction<T>(d: Deck<T>) returns (refetch: bool)
    modifies d
    ensures d.movies == old(d.movies) && d.userId == old(d.userId) && d.loading == old(d.loading)
    ensures old(d.CurrentMovie()).None? || old(d.userId) == "" ==>
      !refetch && d.currentIndex == old(d.currentIndex)
    ensures old(d.CurrentMovie()).Some? && old(d.userId) != "" ==>
      (refetch <==> old(d.currentIndex) + 1 == |old(d.movies)|)
    ensures old(d.CurrentMovie()).Some? && old(d.userId) != "" && !refetch ==>
      d.currentIndex == old(d.currentIndex) + 1 && d.CurrentMovie() == Some(old(d.movies)[old(d.currentIndex) + 1])
    ensures refetch ==> d.currentIndex == old(d.currentIndex)
  {
    if d.CurrentMovie().None? || d.userId == "" {
      return false;
    }
    refetch := d.HandleInteraction(true, d.currentIndex);
  }

  /**
    `handleKeyDown` on the page: the key's command, and the deck after it.
    `reply` is what the undo request answers when the command is `Undo`;
    recording a rating has no effect on the deck.
   */
  method HandleKeyDown<T>(d: Deck<T>, key: string, ctrl: bool, meta: bool, reply: UndoReply<T>)
    returns (c: Command, refetch: bool)
    modifies d
    ensures c == KeyCommand(key, ctrl, meta, old(d.CurrentMovie()).Some?)
    ensures d.userId == old(d.userId) && d.loading == old(d.loading)
    ensures c.Ignore? ==> !refetch && d.movies == old(d.movies) && d.currentIndex == old(d.currentIndex)
    ensures c.Undo? ==> !refetch && d.currentIndex == old(d.currentIndex)
    ensures c.Undo? && old(d.userId) != "" && reply.UndoAnswer? && reply.message == UNDONE_MESSAGE && reply.movieDetails.Some? ==>
      d.movies == SpliceInsert(old(d.movies), old(d.currentIndex), reply.movieDetails.value)
      && d.CurrentMovie() == reply.movieDetails
    ensures c.Undo? && !(old(d.userId) != "" && reply.UndoAnswer? && reply.message == UNDONE_MESSAGE && reply.movieDetails.Some?) ==>
      d.movies == old(d.movies)
    ensures c.Rate? ==> d.movies == old(d.movies)
    ensures c.Rate? && old(d.userId) == "" ==> !refetch && d.currentIndex == old(d.currentIndex)
    ensures c.Rate? && old(d.userId) != "" ==>
      (refetch <==> old(d.currentIndex) + 1 == |old(d.movies)|)
      && d.currentIndex == (if refetch then old(d.currentIndex) else old(d.currentIndex) + 1)
  {
    c := KeyCommand(key, ctrl, meta, d.CurrentMovie().Some?);
    refetch := false;
    match c {
      case Ignore =>
      case Undo =>
        d.HandleUndo(reply);
      case Rate(_) =>
        refetch := SwipeInteraction(d);
    }
  }
}
