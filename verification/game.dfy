/**
 The guessing-round state machine shared by both game components. Each React state
 variable (`card`, `guess`, `guesses`, `revealed`, `gameOver`, `suggestions`) is a field
 of one immutable `State`, and each event handler is one pure, atomic transition.

 The two components differ in two places, selected by `Variant`:
 - how a fetched card's artwork URL is read (optional chaining with a `""` fallback,
   versus a direct dereference of `image_uris` that throws when it is missing);
 - whether typing into the guess field queries the autocomplete service.
 */
module Game {
  import opened Text

  /** The reveal level at which the whole artwork is shown and the round is over. */
  const MaxReveal: nat := 10

  /** Inputs shorter than this many UTF-16 code units are not sent to autocomplete. */
  const MinQueryLength: nat := 3

  datatype Option<T> = None | Some(value: T)

  function Min(a: int, b: int): int {
    if a <= b then a else b
  }

  /** The installed card. `artUrl` is `None` where the source stores `undefined`. */
  datatype Card = Card(name: string, artUrl: Option<string>)

  /** The part of a parsed random-card response the game reads; a `None` field is
      one the JSON object lacks. */
  datatype ImageUris = ImageUris(artCrop: Option<string>)
  datatype CardData = CardData(name: string, imageUris: Option<ImageUris>)

  /** The outcome of fetching and parsing a random card. */
  datatype CardFetch = CardFetchFailed | CardFetched(data: CardData)

  /** The outcome of an autocomplete request: `data` is the response's `data` field. */
  datatype SuggestFetch = SuggestFailed | SuggestFetched(data: Option<seq<string>>)

  /** WheelyHard: src/game.js. ArtGuesser: game..js. */
  datatype Variant = WheelyHard | ArtGuesser

  datatype State = State(
    card: Option<Card>,
    guess: string,
    guesses: nat,
    revealed: nat,
    gameOver: bool,
    suggestions: seq<string>)

  /** The state before the first card is loaded. */
  const Start: State := State(None, "", 0, 0, false, [])

  /** What a submission reports: nothing for a blank guess, the try count on a win
      ("Correct! ... in N tries!"), the card name on a loss ("Game Over! The card was
      NAME"), otherwise the new reveal level, which is shown without a message. */
  datatype Outcome = Ignored | Continue(revealed: nat) | Won(tries: nat) | Lost(name: string)

  datatype Step = Step(state: State, outcome: Outcome)

  /** The source's comparison `guess.toLowerCase() === card.name.toLowerCase()`:
      the guess is not trimmed. */
  predicate Matches(guess: string, name: string) {
    Lower(guess) == Lower(name)
  }

  /** The guess form, and with it the submit action and the text field, is only
      rendered while a card is shown and the round is not over. */
  predicate CanSubmit(s: State) {
    s.card.Some? && !s.gameOver
  }

  /** What every reachable state satisfies: the reveal level is bounded, reaching the
      top is the same as the round being over, an unfinished round has revealed one
      strip per attempt, and a finished round took between 1 and 10 attempts. */
  predicate Inv(s: State) {
    && s.revealed <= MaxReveal
    && (s.gameOver <==> s.revealed == MaxReveal)
    && (!s.gameOver ==> s.guesses == s.revealed)
    && (s.gameOver ==> 1 <= s.guesses <= MaxReveal)
    && (s.card.None? ==> s.guesses == 0 && !s.gameOver)
  }

  lemma StartInv()
    ensures Inv(Start) && !CanSubmit(Start)
  {
  }

  /** `handleGuess`: submitting the pending text. */
  function HandleGuess(s: State): (st: Step)
    requires CanSubmit(s)
    // a blank guess changes nothing, not even the pending text
    ensures IsBlank(s.guess) ==> st == Step(s, Ignored)
    // any other guess costs exactly one attempt and clears the pending text
    ensures !IsBlank(s.guess) ==>
              && st.state.guesses == s.guesses + 1
              && st.state.guess == ""
              && st.state.card == s.card
              && st.state.suggestions == s.suggestions
              && st.state.revealed <= MaxReveal
    // a case-insensitive hit reveals everything, ends the round and reports the new count
    ensures !IsBlank(s.guess) && Matches(s.guess, s.card.value.name) ==>
              && st.state.revealed == MaxReveal
              && st.state.gameOver
              && st.outcome == Won(st.state.guesses)
    // a miss reveals one more strip, capped, and ends the round exactly at the cap
    ensures !IsBlank(s.guess) && !Matches(s.guess, s.card.value.name) ==>
              && st.state.revealed == Min(s.revealed + 1, MaxReveal)
              && (st.state.gameOver <==> st.state.revealed == MaxReveal)
              && (st.state.gameOver ==> st.outcome == Lost(s.card.value.name))
              && (!st.state.gameOver ==> st.outcome == Continue(st.state.revealed))
  {
    if IsBlank(s.guess) then Step(s, Ignored)
    else
      var name := s.card.value.name;
      var counted := s.(guesses := s.guesses + 1, guess := "");
      if Matches(s.guess, name) then
        Step(counted.(gameOver := true, revealed := MaxReveal), Won(s.guesses + 1))
      else
        var next := Min(s.revealed + 1, MaxReveal);
        if next == MaxReveal then Step(counted.(revealed := next, gameOver := true), Lost(name))
        else Step(counted.(revealed := next), Continue(next))
  }

  /** A submission keeps the invariant and never lowers the reveal level. */
  lemma HandleGuessKeepsInv(s: State)
    requires CanSubmit(s) && Inv(s)
    ensures Inv(HandleGuess(s).state)
    ensures s.revealed <= HandleGuess(s).state.revealed
  {
    var t := HandleGuess(s).state;
    if !IsBlank(s.guess) {
      assert s.revealed < MaxReveal;
      if Matches(s.guess, s.card.value.name) {
        assert t.guesses == s.revealed + 1;
      } else {
        assert t.revealed == s.revealed + 1;
      }
    }
  }

  /** `data.image_uris?.art_crop || ""`: a missing object, a missing field or an empty
      string all give the empty string. */
  function ArtCropOrEmpty(u: Option<ImageUris>): string {
    match u
    case Some(ImageUris(Some(art))) => art
    case _ => ""
  }

  /** The `setCard` argument built from a parsed response, or `None` when building it
      throws (game..js reads `data.image_uris.art_crop` without a guard). */
  function ReadCard(v: Variant, d: CardData): (c: Option<Card>)
    ensures c.Some? ==> c.value.name == d.name
    ensures v == WheelyHard ==> c.Some? && c.value.artUrl.Some?
    ensures v == WheelyHard && d.imageUris.Some? && d.imageUris.value.artCrop.Some? ==>
              c.value.artUrl == d.imageUris.value.artCrop
    ensures v == WheelyHard && (d.imageUris.None? || d.imageUris.value.artCrop.None?) ==>
              c.value.artUrl == Some("")
    ensures v == ArtGuesser ==> (c.Some? <==> d.imageUris.Some?)
    ensures v == ArtGuesser && c.Some? ==> c.value.artUrl == d.imageUris.value.artCrop
  {
    match v
    case WheelyHard => Some(Card(d.name, Some(ArtCropOrEmpty(d.imageUris))))
    case ArtGuesser =>
      if d.imageUris.None? then None else Some(Card(d.name, d.imageUris.value.artCrop))
  }

  /** Where the two readings overlap: on a response with `art_crop` they build the same
      card, and whatever MTG Art Guesser builds, Wheely Hard builds the card with the same
      name and the same URL or `""` in place of a missing one. */
  lemma ReadCardVariants(d: CardData)
    ensures d.imageUris.Some? && d.imageUris.value.artCrop.Some? ==>
              ReadCard(WheelyHard, d) == ReadCard(ArtGuesser, d)
    ensures ReadCard(ArtGuesser, d).Some? ==>
              && ReadCard(WheelyHard, d).value.name == ReadCard(ArtGuesser, d).value.name
              && (ReadCard(ArtGuesser, d).value.artUrl.Some? ==>
                    ReadCard(WheelyHard, d) == ReadCard(ArtGuesser, d))
              && (ReadCard(ArtGuesser, d).value.artUrl.None? ==>
                    ReadCard(WheelyHard, d).value.artUrl == Some(""))
    ensures ReadCard(ArtGuesser, d).None? ==> ReadCard(WheelyHard, d) == Some(Card(d.name, Some("")))
  {
  }

  /** `loadNewCard`: a successful load installs the card and starts a fresh round; a
      failed fetch, or a response the component cannot read, leaves every field as it was. */
  function LoadNewCard(s: State, v: Variant, fetched: CardFetch): (t: State)
    ensures fetched.CardFetched? && ReadCard(v, fetched.data).Some? ==>
              && t.card == ReadCard(v, fetched.data)
              && t.guesses == 0 && t.revealed == 0 && !t.gameOver
              && t.guess == s.guess && t.suggestions == s.suggestions
    ensures fetched.CardFetchFailed? || ReadCard(v, fetched.data).None? ==> t == s
    ensures Inv(s) ==> Inv(t)
  {
    match fetched
    case CardFetchFailed => s
    case CardFetched(data) =>
      match ReadCard(v, data)
      case None => s
      case Some(c) => s.(card := Some(c), guesses := 0, revealed := 0, gameOver := false)
  }

  /** Typing into the guess field (`handleInputChange` in src/game.js, a bare `setGuess`
      in game..js). The result carries the autocomplete query the keystroke issues. */
  datatype Typed = Typed(state: State, query: Option<string>)

  function HandleInputChange(s: State, v: Variant, value: string): (r: Typed)
    ensures r.state.guess == value
    ensures r.query.Some? <==> v == WheelyHard && Utf16Length(value) >= MinQueryLength
    ensures r.query.Some? ==> r.query.value == value
    ensures v == WheelyHard && Utf16Length(value) < MinQueryLength ==> r.state.suggestions == []
    ensures r.query.Some? || v == ArtGuesser ==> r.state.suggestions == s.suggestions
    ensures r.state.card == s.card && r.state.gameOver == s.gameOver
    ensures r.state.guesses == s.guesses && r.state.revealed == s.revealed
  {
    var typed := s.(guess := value);
    match v
    case ArtGuesser => Typed(typed, None)
    case WheelyHard =>
      if Utf16Length(value) < MinQueryLength then Typed(typed.(suggestions := []), None)
      else Typed(typed, Some(value))
  }

  /** The autocomplete response arriving: `data.data || []` on success; a failed
      request is only logged. */
  function ReceiveSuggestions(s: State, fetched: SuggestFetch): (t: State)
    ensures fetched.SuggestFailed? ==> t == s
    ensures fetched.SuggestFetched? && fetched.data.Some? ==> t.suggestions == fetched.data.value
    ensures fetched.SuggestFetched? && fetched.data.None? ==> t.suggestions == []
    ensures t.card == s.card && t.guess == s.guess && t.gameOver == s.gameOver
    ensures t.guesses == s.guesses && t.revealed == s.revealed
  {
    match fetched
    case SuggestFailed => s
    case SuggestFetched(data) =>
      s.(suggestions := match data case Some(names) => names case None => [])
  }

  /** `selectSuggestion`: the chosen name becomes the pending text and the list closes;
      nothing is submitted. */
  function SelectSuggestion(s: State, name: string): (t: State)
    ensures t.guess == name && t.suggestions == []
    ensures t.card == s.card && t.guesses == s.guesses && t.revealed == s.revealed
    ensures t.gameOver == s.gameOver
  {
    s.(guess := name, suggestions := [])
  }
}
