/**
 Whole rounds: user events applied in order, each gated by what the page renders
 at that moment (the guess form only while a card is shown and the round is open,
 the Start / Play Again button only when there is no card or the round is over,
 the suggestion list only in the component that has one and only while it is
 non-empty). An event the page offers no control for leaves the state unchanged.
 */
module Rounds {
  import opened Text
  import opened Game

  datatype Event =
    | Type(value: string)          // a keystroke leaves `value` in the guess field
    | Pick(index: nat)             // a click on the `index`-th suggestion
    | Submit                       // the guess form is submitted
    | Suggestions(response: SuggestFetch)  // an autocomplete response arrives
    | Load(card: CardFetch)        // Start Game / Play Again, with the fetch's result

  function Dispatch(s: State, v: Variant, e: Event): (t: State)
    ensures e.Submit? && CanSubmit(s) ==> t == HandleGuess(s).state
    ensures e.Load? && !CanSubmit(s) ==> t == LoadNewCard(s, v, e.card)
    ensures e.Load? && CanSubmit(s) ==> t == s
    ensures e.Type? && CanSubmit(s) ==> t == HandleInputChange(s, v, e.value).state
    ensures !CanSubmit(s) && (e.Submit? || e.Type? || e.Pick?) ==> t == s
    ensures v == ArtGuesser && (e.Pick? || e.Suggestions?) ==> t == s
    ensures v == WheelyHard && e.Pick? && CanSubmit(s) && e.index < |s.suggestions| ==>
              t == SelectSuggestion(s, s.suggestions[e.index])
    ensures e.Pick? && e.index >= |s.suggestions| ==> t == s
    ensures v == WheelyHard && e.Suggestions? ==> t == ReceiveSuggestions(s, e.response)
  {
    match e
    case Type(value) =>
      if CanSubmit(s) then HandleInputChange(s, v, value).state else s
    case Pick(i) =>
      if v == WheelyHard && CanSubmit(s) && i < |s.suggestions|
      then SelectSuggestion(s, s.suggestions[i]) else s
    case Submit =>
      if CanSubmit(s) then HandleGuess(s).state else s
    case Suggestions(fetched) =>
      if v == WheelyHard then ReceiveSuggestions(s, fetched) else s
    case Load(fetched) =>
      if CanSubmit(s) then s else LoadNewCard(s, v, fetched)
  }

  function Run(s: State, v: Variant, es: seq<Event>): State
    decreases |es|
  {
    if es == [] then s else Run(Dispatch(s, v, es[0]), v, es[1..])
  }

  lemma DispatchKeepsInv(s: State, v: Variant, e: Event)
    requires Inv(s)
    ensures Inv(Dispatch(s, v, e))
  {
    if e.Submit? && CanSubmit(s) {
      HandleGuessKeepsInv(s);
    }
  }

  /** Every state reachable from a state satisfying `Inv` satisfies it. */
  lemma {:induction false} RunKeepsInv(s: State, v: Variant, es: seq<Event>)
    requires Inv(s)
    ensures Inv(Run(s, v, es))
    decreases |es|
  {
    if es != [] {
      DispatchKeepsInv(s, v, es[0]);
      RunKeepsInv(Dispatch(s, v, es[0]), v, es[1..]);
    }
  }

  /** The reveal level and the attempt count only go down when a new card loads,
      and a load that goes through resets both to 0. */
  lemma OnlyLoadResets(s: State, v: Variant, e: Event)
    requires Inv(s)
    ensures var t := Dispatch(s, v, e);
            t.revealed < s.revealed || t.guesses < s.guesses ==>
              e.Load? && t.revealed == 0 && t.guesses == 0 && !t.gameOver
  {
    if e.Submit? && CanSubmit(s) {
      HandleGuessKeepsInv(s);
    }
  }

  predicate NoLoads(es: seq<Event>) {
    forall i :: 0 <= i < |es| ==> !es[i].Load?
  }

  /** Within a round (no load event), the reveal level and attempt count never decrease,
      the card stays the same and a finished round stays finished. */
  lemma {:induction false} RoundMonotone(s: State, v: Variant, es: seq<Event>)
    requires Inv(s) && NoLoads(es)
    ensures var t := Run(s, v, es);
            && s.revealed <= t.revealed && s.guesses <= t.guesses
            && t.card == s.card && (s.gameOver ==> t.gameOver)
    decreases |es|
  {
    if es != [] {
      var s' := Dispatch(s, v, es[0]);
      OnlyLoadResets(s, v, es[0]);
      DispatchKeepsInv(s, v, es[0]);
      assert !es[0].Load?;
      assert NoLoads(es[1..]) by {
        forall i | 0 <= i < |es[1..]| ensures !es[1..][i].Load? {
          assert es[1..][i] == es[i + 1];
        }
      }
      if es[0].Submit? && CanSubmit(s) {
        HandleGuessKeepsInv(s);
      }
      RoundMonotone(s', v, es[1..]);
    }
  }

  predicate Miss(g: string, name: string) {
    !IsBlank(g) && !Matches(g, name)
  }

  /** Typing `g` into the open guess form and submitting it. A blank guess costs
      nothing; any other costs one attempt. A hit ends the round at full reveal and
      reports the try count; a miss reveals one more strip, and ends the round, naming
      the card, exactly when the cap is reached. The card never changes. */
  function GuessStep(s: State, v: Variant, g: string): (st: Step)
    requires CanSubmit(s)
    ensures st.state.card == s.card
    ensures IsBlank(g) ==>
              && st.outcome == Ignored
              && st.state.guesses == s.guesses && st.state.revealed == s.revealed
              && st.state.gameOver == s.gameOver
    ensures !IsBlank(g) ==> st.state.guesses == s.guesses + 1
    ensures !IsBlank(g) && Matches(g, s.card.value.name) ==>
              && st.state.revealed == MaxReveal && st.state.gameOver
              && st.outcome == Won(s.guesses + 1)
    ensures Miss(g, s.card.value.name) ==>
              && st.state.revealed == Min(s.revealed + 1, MaxReveal)
              && (st.state.gameOver <==> st.state.revealed == MaxReveal)
              && (st.state.gameOver ==> st.outcome == Lost(s.card.value.name))
              && (!st.state.gameOver ==> st.outcome == Continue(st.state.revealed))
  {
    HandleGuess(HandleInputChange(s, v, g).state)
  }

  /** A typed guess keeps the invariant and never lowers the reveal level. */
  lemma GuessStepKeepsInv(s: State, v: Variant, g: string)
    requires CanSubmit(s) && Inv(s)
    ensures Inv(GuessStep(s, v, g).state)
    ensures s.revealed <= GuessStep(s, v, g).state.revealed
  {
    HandleGuessKeepsInv(HandleInputChange(s, v, g).state);
  }

  /** A guess typed and submitted on the page: without the form, nothing happens. */
  function Guess(s: State, v: Variant, g: string): State {
    if CanSubmit(s) then GuessStep(s, v, g).state else s
  }

  /** `Guess` is the page's own pair of events: a keystroke, then a submission. */
  lemma GuessIsTypeThenSubmit(s: State, v: Variant, g: string)
    ensures Guess(s, v, g) == Dispatch(Dispatch(s, v, Type(g)), v, Submit)
  {
  }

  /** Typing each guess and submitting it, in order. */
  function Play(s: State, v: Variant, gs: seq<string>): State
    decreases |gs|
  {
    if gs == [] then s else Play(Guess(s, v, gs[0]), v, gs[1..])
  }

  /** Once the round is over the form is gone: further guesses change nothing. */
  lemma {:induction false} PlayAfterRoundOver(s: State, v: Variant, gs: seq<string>)
    requires !CanSubmit(s)
    ensures Play(s, v, gs) == s
    decreases |gs|
  {
    if gs != [] {
      PlayAfterRoundOver(s, v, gs[1..]);
    }
  }

  /** Consecutive misses: each costs one attempt and reveals one strip, and the round
      ends exactly when the reveal level reaches 10. */
  lemma {:induction false} Misses(s: State, v: Variant, gs: seq<string>)
    requires Inv(s) && CanSubmit(s)
    requires s.revealed + |gs| <= MaxReveal
    requires forall i :: 0 <= i < |gs| ==> Miss(gs[i], s.card.value.name)
    ensures var t := Play(s, v, gs);
            && t.guesses == s.guesses + |gs|
            && t.revealed == s.revealed + |gs|
            && (t.gameOver <==> t.revealed == MaxReveal)
            && t.card == s.card
    decreases |gs|
  {
    if gs != [] {
      var s' := Guess(s, v, gs[0]);
      assert Miss(gs[0], s.card.value.name);
      assert s'.revealed == s.revealed + 1 && s'.guesses == s.guesses + 1;
      assert s'.card == s.card && Inv(s');
      if s'.gameOver {
        assert gs[1..] == [];
      } else {
        assert forall i :: 0 <= i < |gs[1..]| ==> Miss(gs[1..][i], s'.card.value.name) by {
          forall i | 0 <= i < |gs[1..]| ensures Miss(gs[1..][i], s'.card.value.name) {
            assert gs[1..][i] == gs[i + 1];
          }
        }
        Misses(s', v, gs[1..]);
      }
    }
  }

  /** Every state reached by typed guesses satisfies the invariant, so no sequence of
      guesses ever counts more than 10 attempts. */
  lemma {:induction false} PlayKeepsInv(s: State, v: Variant, gs: seq<string>)
    requires Inv(s)
    ensures Inv(Play(s, v, gs))
    ensures Play(s, v, gs).guesses <= MaxReveal
    decreases |gs|
  {
    if gs != [] {
      if CanSubmit(s) {
        GuessStepKeepsInv(s, v, gs[0]);
      }
      PlayKeepsInv(Guess(s, v, gs[0]), v, gs[1..]);
    }
  }

  /** A round that has just started. */
  predicate Fresh(s: State) {
    s.card.Some? && s.guesses == 0 && s.revealed == 0 && !s.gameOver
  }

  /** From a fresh round, k misses leave the round open for k < 10 and end it at k = 10,
      with k attempts counted either way. */
  lemma MissesFromFresh(s: State, v: Variant, gs: seq<string>)
    requires Fresh(s) && |gs| <= MaxReveal
    requires forall i :: 0 <= i < |gs| ==> Miss(gs[i], s.card.value.name)
    ensures Play(s, v, gs).guesses == |gs|
    ensures Play(s, v, gs).gameOver <==> |gs| == MaxReveal
  {
    Misses(s, v, gs);
  }

  /** Any ten non-blank guesses end a fresh round, whether or not one of them hits. */
  lemma {:induction false} RoundEndsByTenthGuess(s: State, v: Variant, gs: seq<string>)
    requires Inv(s) && s.card.Some?
    requires s.revealed + |gs| >= MaxReveal
    requires forall i :: 0 <= i < |gs| ==> !IsBlank(gs[i])
    ensures Play(s, v, gs).gameOver
    ensures Play(s, v, gs).guesses <= MaxReveal
    decreases |gs|
  {
    PlayKeepsInv(s, v, gs);
    if !CanSubmit(s) {
      PlayAfterRoundOver(s, v, gs);
    } else {
      var s' := Guess(s, v, gs[0]);
      assert !IsBlank(gs[0]);
      assert s'.gameOver || s'.revealed == s.revealed + 1;
      assert forall i :: 0 <= i < |gs[1..]| ==> !IsBlank(gs[1..][i]) by {
        forall i | 0 <= i < |gs[1..]| ensures !IsBlank(gs[1..][i]) {
          assert gs[1..][i] == gs[i + 1];
        }
      }
      RoundEndsByTenthGuess(s', v, gs[1..]);
    }
  }

  /** Blank submissions, any number of them, cost no attempt and reveal nothing. */
  lemma {:induction false} BlanksChangeNothing(s: State, v: Variant, gs: seq<string>)
    requires forall i :: 0 <= i < |gs| ==> IsBlank(gs[i])
    ensures var t := Play(s, v, gs);
            t.guesses == s.guesses && t.revealed == s.revealed
            && t.gameOver == s.gameOver && t.card == s.card
    decreases |gs|
  {
    if gs != [] {
      var s' := Guess(s, v, gs[0]);
      assert IsBlank(gs[0]);
      assert forall i :: 0 <= i < |gs[1..]| ==> IsBlank(gs[1..][i]) by {
        forall i | 0 <= i < |gs[1..]| ensures IsBlank(gs[1..][i]) {
          assert gs[1..][i] == gs[i + 1];
        }
      }
      BlanksChangeNothing(s', v, gs[1..]);
    }
  }
}
