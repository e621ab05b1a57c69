/**
 Concrete rounds played through the model, and where the two components part ways
 on the same random-card response.
 */
module Scenarios {
  import opened Text
  import opened Game
  import opened Rounds

  function Response(name: string, art: string): CardFetch {
    CardFetched(CardData(name, Some(ImageUris(Some(art)))))
  }

  /** Both components install the same card from a response that carries `art_crop`,
      and start the same fresh round. */
  lemma VariantsAgreeWithArt(s: State, name: string, art: string)
    ensures LoadNewCard(s, WheelyHard, Response(name, art))
         == LoadNewCard(s, ArtGuesser, Response(name, art))
    ensures Fresh(LoadNewCard(s, WheelyHard, Response(name, art)))
  {
  }

  /** A response without `image_uris`: src/game.js installs the card with an empty art
      URL, game..js throws before `setCard` and keeps the previous state. */
  lemma VariantsDifferWithoutImageUris(s: State, name: string)
    ensures LoadNewCard(s, WheelyHard, CardFetched(CardData(name, None))).card
         == Some(Card(name, Some("")))
    ensures LoadNewCard(s, ArtGuesser, CardFetched(CardData(name, None))) == s
  {
  }

  /** The round that starts when `name` is loaded from the start page. */
  lemma LoadedFromStart(v: Variant, name: string)
    ensures Dispatch(Start, v, Load(Response(name, "art")))
         == State(Some(Card(name, Some("art"))), "", 0, 0, false, [])
  {
  }

  lemma BlackLotusGuessMatches()
    ensures !IsBlank("black lotus") && Matches("black lotus", "Black Lotus")
  {
    BlankIff("black lotus");
    assert !IsWhitespace("black lotus"[0]);
    BlackLotusSameIgnoringCase();
    LowerEqualIff("black lotus", "Black Lotus");
  }

  lemma BlackLotusSameIgnoringCase()
    ensures SameIgnoringCase("black lotus", "Black Lotus")
  {
  }

  /** Start Game with "Black Lotus", type "black lotus", submit: a win in one try. */
  lemma BlackLotusWinsInOne(v: Variant)
    ensures var s := Dispatch(Start, v, Load(Response("Black Lotus", "art")));
            && CanSubmit(s)
            && GuessStep(s, v, "black lotus").outcome == Won(1)
            && GuessStep(s, v, "black lotus").state.revealed == 10
            && GuessStep(s, v, "black lotus").state.gameOver
  {
    LoadedFromStart(v, "Black Lotus");
    BlackLotusGuessMatches();
  }

  /** A guess whose first character is visible is not blank. */
  lemma VisibleStartNotBlank(g: string)
    requires g != [] && !IsWhitespace(g[0])
    ensures !IsBlank(g)
  {
    BlankIff(g);
  }

  /** A non-blank guess that differs in length from the name is always a miss: case
      folding keeps lengths. */
  lemma LengthMismatchMisses(g: string, name: string)
    requires !IsBlank(g) && |g| != |name|
    ensures Miss(g, name)
  {
    assert |Lower(g)| != |Lower(name)|;
  }

  /** The guess is compared untrimmed: a trailing space turns the right name into a miss
      that costs an attempt. */
  lemma TrailingSpaceMisses(v: Variant)
    ensures var s := Dispatch(Start, v, Load(Response("Black Lotus", "art")));
            && CanSubmit(s)
            && GuessStep(s, v, "black lotus ").outcome == Continue(1)
            && GuessStep(s, v, "black lotus ").state.guesses == 1
  {
    LoadedFromStart(v, "Black Lotus");
    VisibleStartNotBlank("black lotus ");
    LengthMismatchMisses("black lotus ", "Black Lotus");
  }

  /** Nine wrong guesses, then a tenth. */
  function NineMisses(): seq<string> {
    ["a", "b", "c", "d", "e", "f", "g", "h", "i"]
  }

  lemma NineMissCounterspell()
    ensures forall i :: 0 <= i < |NineMisses()| ==> Miss(NineMisses()[i], "Counterspell")
  {
    forall i | 0 <= i < |NineMisses()| ensures Miss(NineMisses()[i], "Counterspell") {
      VisibleStartNotBlank(NineMisses()[i]);
      LengthMismatchMisses(NineMisses()[i], "Counterspell");
    }
  }

  /** Nine misses from a fresh round leave it open at level 9 with 9 attempts; a tenth
      miss loses it and names the card. */
  lemma TenMissesLose(s: State, v: Variant, gs: seq<string>, g: string)
    requires Fresh(s) && |gs| == MaxReveal - 1
    requires forall i :: 0 <= i < |gs| ==> Miss(gs[i], s.card.value.name)
    requires Miss(g, s.card.value.name)
    ensures var nine := Play(s, v, gs);
            && CanSubmit(nine) && nine.guesses == 9 && nine.revealed == 9
            && GuessStep(nine, v, g).outcome == Lost(s.card.value.name)
            && GuessStep(nine, v, g).state.gameOver
            && GuessStep(nine, v, g).state.revealed == 10
            && GuessStep(nine, v, g).state.guesses == 10
  {
    assert Inv(s) && CanSubmit(s);
    Misses(s, v, gs);
  }

  /** Ten wrong guesses against "Counterspell": the round stays open for nine of them and
      the tenth loses it, reporting the card's name. */
  lemma CounterspellLostOnTenth(v: Variant)
    ensures var s := Dispatch(Start, v, Load(Response("Counterspell", "art")));
            var nine := Play(s, v, NineMisses());
            && CanSubmit(nine) && nine.guesses == 9 && nine.revealed == 9
            && GuessStep(nine, v, "j").outcome == Lost("Counterspell")
            && GuessStep(nine, v, "j").state.gameOver
            && GuessStep(nine, v, "j").state.revealed == 10
            && GuessStep(nine, v, "j").state.guesses == 10
  {
    LoadedFromStart(v, "Counterspell");
    NineMissCounterspell();
    VisibleStartNotBlank("j");
    LengthMismatchMisses("j", "Counterspell");
    TenMissesLose(Dispatch(Start, v, Load(Response("Counterspell", "art"))), v, NineMisses(), "j");
  }

  /** A failed load changes nothing. */
  lemma FailedLoadKeepsRound(s: State, v: Variant)
    ensures Dispatch(s, v, Load(CardFetchFailed)) == s
  {
  }

  /** Short input clears the list and sends no query; picking a suggestion fills the
      field without spending an attempt. */
  lemma AutocompleteGate(s: State, name: string)
    requires CanSubmit(s)
    ensures HandleInputChange(s, WheelyHard, "bl").query == None
    ensures HandleInputChange(s, WheelyHard, "bl").state.suggestions == []
    ensures HandleInputChange(s, WheelyHard, "bla").query == Some("bla")
    ensures SelectSuggestion(s, name).guesses == s.guesses
  {
  }
}
