# Wheely Hard / MTG Art Guesser: the guessing round, in Dafny

The game fetches a random Magic card and shows its artwork under a black overlay.
The player types card names. Each wrong guess uncovers one more tenth of the image from
the top down. A right guess, compared case-insensitively, wins. The tenth wrong guess
loses. Two near-identical React components implement this: `src/game.js` ("Wheely Hard",
with name autocomplete) and `game..js` ("MTG Art Guesser").

This project models their shared core as pure functions over one immutable `State`
(`card`, pending `guess` text, `guesses`, `revealed`, `gameOver`, `suggestions`):

- `text.dfy` (`Text`): `trim`, `toLowerCase` and `length` written out character by
  character. `trim` strips exactly the ECMAScript WhiteSpace and LineTerminator set.
  `length` counts UTF-16 code units.
- `game.dfy` (`Game`): the handlers `handleGuess`, `loadNewCard`, `handleInputChange`,
  the arrival of an autocomplete response, and `selectSuggestion`. Also the invariant
  `Inv` that every reachable state satisfies. The parameter `Variant` picks the
  component: `WheelyHard` is `src/game.js`, `ArtGuesser` is `game..js`.
- `mask.dfy` (`Mask`): the overlay rectangle `fillRect(0, H*r/10, W, H - H*r/10)`, and
  the masked canvas that results, pixel by pixel.
- `rounds.dfy` (`Rounds`): sequences of user events. Each event is gated by what the page
  renders at that moment. This module proves lemmas over whole rounds by induction on
  the number of guesses.
- `scenarios.dfy` (`Scenarios`): concrete rounds, and the point where the two components
  disagree on the same response.

Points where the code's behaviour is easy to misread:

- `handleGuess` itself checks neither `gameOver` nor `card`. Only the page's rendering
  keeps it from running, because the form exists only while a card is shown and the
  round is open (src/game.js:112, src/game.js:126). So `Game.HandleGuess` takes
  `CanSubmit` as a precondition, and `Rounds.Dispatch` ignores a submission the page
  could not have offered.
- Start Game / Play Again is only rendered when there is no card or the round is over
  (src/game.js:112-120, src/game.js:148-153). With one atomic transition per handler, a
  new load therefore cannot start while a round is open, and `Rounds.Dispatch` ignores
  a load at that point. This assumes the previous load has finished; see "## Left out"
  for a second load that is still pending.
- The code has a single `gameOver` flag, not separate Won and Lost statuses. A win and a
  loss differ only in the message shown, which is modelled as the `Outcome` of a
  submission.
- `game..js` dereferences `data.image_uris.art_crop` without a guard. A response that
  lacks `image_uris` therefore throws before `setCard` and is handled like a failed
  fetch: the state is unchanged. `src/game.js` installs the same card with art URL `""`.
- Neither file reports an image-decode failure, and neither file discards a stale card
  load. So the model has neither behaviour.

## Model

| member | source | states |
|---|---|---|
| Game.Inv | src/game.js:64-85 | The state invariant: reveal level at most 10; the round is over exactly at level 10; an open round has one attempt per revealed strip; a finished round took 1 to 10 attempts; before any card there are no attempts and the round is open |
| Game.Matches | src/game.js:70 | The hit test `guess.toLowerCase() === card.name.toLowerCase()`, on the untrimmed guess |
| Game.CanSubmit | src/game.js:112-147 | The page shows the guess form, and with it the text field, the suggestion list and the submit button, exactly when a card is loaded and the round is not over |
| Game.HandleGuess | src/game.js:64-85 | A guess that is blank after trimming changes nothing, not even the pending text. Any other guess costs exactly one attempt and clears the pending text. A guess equal to the card name up to case sets reveal 10, ends the round and reports the new attempt count. A miss sets reveal to min(reveal+1, 10) and ends the round exactly when that reaches 10, reporting the card name |
| Game.HandleGuessKeepsInv | game..js:58-78 | A submission keeps reveal in [0,10], keeps "round over iff reveal is 10", keeps "open round: attempts equal reveal", and never lowers the reveal level |
| Game.StartInv | src/game.js:5-9 | The initial state (no card, zero counters) satisfies the invariant and offers no guess form |
| Game.ArtCropOrEmpty | src/game.js:24 | `data.image_uris?.art_crop \|\| ""`: the `art_crop` string when both `image_uris` and `art_crop` are present, `""` otherwise |
| Game.ReadCard | src/game.js:22-25 | The stored card carries the response's name. Wheely Hard always builds a card, with the `art_crop` URL, or `""` when `image_uris` or `art_crop` is missing. MTG Art Guesser builds one exactly when `image_uris` is present, and copies `art_crop` as is |
| Game.ReadCardVariants | game..js:21-24 | On a response with `art_crop` both components build the same card. Whenever MTG Art Guesser builds a card, Wheely Hard builds one with the same name, and with the same URL or with `""` where MTG Art Guesser stores none. Where MTG Art Guesser throws, Wheely Hard builds the card with URL `""` |
| Game.LoadNewCard | src/game.js:15-34 | A successful load installs the card and resets attempts, reveal and game over, keeping the pending text and suggestions. A failed fetch, or a response the component cannot read, leaves the state unchanged. The load preserves the invariant |
| Game.HandleInputChange | src/game.js:37-55 | Typing always sets the pending text. A query is issued exactly when the component has autocomplete and the input is at least 3 UTF-16 units long, and the query is the input. Shorter input empties the suggestion list. Card, attempts, reveal and game over are untouched |
| Game.ReceiveSuggestions | src/game.js:46-54 | A response replaces the list with its `data`, or with an empty list when `data` is absent. A failed request leaves the state unchanged. Card, pending text, attempts, reveal and game over are untouched |
| Game.SelectSuggestion | src/game.js:58-61 | Picking a suggestion sets the pending text to it and empties the list. Attempts, reveal, game over and card are untouched, so nothing is submitted |
| Text.IsWhitespace | src/game.js:66 | The characters `trim` strips: the ECMAScript WhiteSpace and LineTerminator code points |
| Text.TrimStart | src/game.js:66 | Stripping leading whitespace never lengthens the text; TrimStartDrops states what is kept and dropped |
| Text.TrimStartDrops | src/game.js:66 | Stripping leading whitespace keeps a suffix that is empty or starts with a non-whitespace character, and everything dropped is whitespace |
| Text.TrimEnd | game..js:60 | Stripping trailing whitespace never lengthens the text; TrimEndDrops states what is kept and dropped |
| Text.TrimEndDrops | game..js:60 | Stripping trailing whitespace keeps a prefix that is empty or ends with a non-whitespace character, and everything dropped is whitespace |
| Text.Trim | src/game.js:66 | `trim` strips leading, then trailing whitespace, and never lengthens the text; TrimEnds and BlankIff state the result |
| Text.TrimEnds | src/game.js:66 | The trimmed text is empty or starts and ends with a non-whitespace character |
| Text.IsBlank | src/game.js:66 | The rejection test `!guess.trim()`: the trimmed text is empty |
| Text.BlankIff | game..js:60 | A guess is rejected as blank exactly when every character in it is whitespace |
| Text.LowerChar | src/game.js:70 | A capital among A–Z and the Latin-1 capitals folds to the character 32 code points above it, and every other character is kept. The result is never a capital |
| Text.LowerCharSame | game..js:65 | Two characters fold to the same character iff they are equal or one is the capital of the other |
| Text.Lower | src/game.js:70 | `toLowerCase` on the covered capitals keeps the length; LowerAt states it character by character |
| Text.LowerAt | game..js:65 | Lowering works position by position: character i of the result is character i of the input, folded |
| Text.LowerFolds | src/game.js:70 | A lowered string has no upper-case character and keeps every character that is not upper case |
| Text.LowerIdempotent | src/game.js:70 | Lowering twice is lowering once |
| Text.LowerEqualIff | game..js:65 | Two strings are equal after lowering iff they have the same length and are equal position by position up to case |
| Text.Utf16Length | src/game.js:41 | The length lies between the number of characters and twice that number |
| Text.Utf16LengthChar | src/game.js:41 | One character counts two code units above U+FFFF and one otherwise |
| Text.Utf16LengthAppend | src/game.js:41 | The length of a concatenation is the sum of the lengths, so with Utf16LengthChar it is the sum over the characters |
| Text.Utf16LengthBmp | src/game.js:41 | For text without characters above U+FFFF the length is the number of characters |
| Mask.Overlay | src/game.js:100-102 | The overlay spans the full width from x = 0, reaches the bottom edge, and its top edge satisfies top * 10 = H * r |
| Mask.Covers | src/game.js:102 | The pixels `fillRect(x, y, w, h)` paints: those whose top-left corner lies in [x, x+w) × [y, y+h) |
| Mask.OverlayCoversIff | src/game.js:101-102 | Inside the canvas, a pixel is painted black iff its row y has 10y >= H*r. So the mask covers the rows [H*r/10, H) |
| Mask.OverlayInside | game..js:50-51 | For reveal levels 0..10 the overlay's top edge and height lie within [0, H] |
| Mask.ReachableOverlayInside | src/game.js:101-102 | In every state satisfying the invariant, the overlay for the current reveal level lies inside the canvas |
| Mask.OverlayEnds | game..js:50-51 | At level 0 the overlay starts at the top and has full height. At level 10 it has zero height |
| Mask.OverlayShrinks | src/game.js:101-102 | Raising the reveal level never makes the overlay taller |
| Mask.Composite | src/game.js:95-103 | The drawn canvas has the image's size. Each pixel is the image's pixel when its row lies above H*r/10, and black otherwise |
| Mask.CompositeEnds | game..js:43-52 | At level 10 the canvas equals the artwork. At level 0 every pixel is black |
| Mask.CompositeRevealGrows | src/game.js:95-106 | A pixel that is visible at one reveal level is visible at every higher level |
| Rounds.Dispatch | src/game.js:108-157 | A submission while the form is shown is `handleGuess`, and a keystroke then is `handleInputChange`. Without the form, a submission, keystroke or pick changes nothing. In Wheely Hard a click on an existing suggestion while the form is shown is `selectSuggestion` of that entry, and an autocomplete response is `setSuggestions(data.data \|\| [])`. A pick past the end of the list changes nothing. MTG Art Guesser has no suggestion list, so a pick or a suggestions response changes nothing there. A load while no round is open is `loadNewCard`; a load during an open round changes nothing |
| Rounds.DispatchKeepsInv | game..js:84-126 | Every user event preserves the invariant |
| Rounds.RunKeepsInv | src/game.js:108-157 | Every state reachable by a sequence of events satisfies the invariant |
| Rounds.OnlyLoadResets | game..js:25-27 | Reveal level or attempt count goes down only on a load, and then both are 0 and the round is open |
| Rounds.RoundMonotone | game..js:67-71 | Within a round (no load), reveal and attempts never decrease, the card stays the same, and a finished round stays finished |
| Rounds.GuessStep | src/game.js:126-147 | Typing `g` into the open form and submitting it: a blank `g` changes no counter and reports nothing. Any other `g` costs one attempt. A hit ends the round at reveal 10 and reports the try count. A miss reveals min(reveal+1, 10) and ends the round, naming the card, exactly at 10. The card never changes |
| Rounds.GuessStepKeepsInv | src/game.js:126-147 | A typed guess keeps the invariant and never lowers the reveal level |
| Rounds.GuessIsTypeThenSubmit | game..js:106-110 | A typed guess is exactly a keystroke event followed by a submit event, each gated by the page |
| Rounds.PlayKeepsInv | src/game.js:64-85 | Every state reached by typed guesses satisfies the invariant, so no sequence of guesses counts more than 10 attempts |
| Rounds.PlayAfterRoundOver | src/game.js:126-155 | Once the round is over (or before any card), further typed guesses change nothing |
| Rounds.Misses | src/game.js:75-81 | Consecutive misses each cost one attempt and reveal one strip, and the round ends exactly when the reveal level reaches 10 |
| Rounds.MissesFromFresh | src/game.js:76-78 | From a fresh round, k ≤ 10 misses give k attempts, and the round is over iff k = 10 |
| Rounds.RoundEndsByTenthGuess | src/game.js:118 | Any 10 non-blank guesses end a round, hit or miss, and the round took at most 10 attempts |
| Rounds.BlanksChangeNothing | game..js:60 | Any number of blank submissions leave attempts, reveal, game over and card unchanged |
| Scenarios.VariantsAgreeWithArt | game..js:21-27 | For a response with `art_crop` both components install the same card and start a fresh round |
| Scenarios.VariantsDifferWithoutImageUris | game..js:21-30 | Without `image_uris`, Wheely Hard installs the card with art URL `""`. MTG Art Guesser throws before `setCard` and keeps the previous state |
| Scenarios.LoadedFromStart | src/game.js:22-28 | Loading a card from the start state gives that card with zero counters, an open round, and empty pending text and list |
| Scenarios.BlackLotusGuessMatches | src/game.js:70 | "black lotus" is not blank and matches "Black Lotus" |
| Scenarios.BlackLotusWinsInOne | src/game.js:70-73 | Guessing "black lotus" for "Black Lotus" wins on the first try: the outcome reports 1 try, reveal is 10, and the round is over |
| Scenarios.VisibleStartNotBlank | src/game.js:66 | A guess whose first character is not whitespace is not blank |
| Scenarios.LengthMismatchMisses | game..js:65 | A non-blank guess whose length differs from the name is a miss |
| Scenarios.TrailingSpaceMisses | src/game.js:66-70 | "black lotus " (trailing space) is not trimmed before comparison. It is a miss against "Black Lotus" and costs an attempt |
| Scenarios.NineMissCounterspell | src/game.js:70 | Each of nine one-letter guesses misses "Counterspell" |
| Scenarios.TenMissesLose | src/game.js:75-81 | From a fresh round, nine misses leave it open at reveal 9 with 9 attempts. A tenth miss loses it and reports the name |
| Scenarios.CounterspellLostOnTenth | src/game.js:76-79 | Ten wrong guesses against "Counterspell": after nine the round is open, and the tenth reports a loss naming "Counterspell" with reveal 10 and 10 attempts |
| Scenarios.FailedLoadKeepsRound | game..js:28-30 | A failed card fetch leaves the whole state unchanged |
| Scenarios.AutocompleteGate | src/game.js:41-44 | Input of 2 characters clears the list and sends no query. Input of 3 sends a query. Picking a suggestion spends no attempt |

## Left out

- Network fetches, JSON parsing and URL construction (the random-card query and the autocomplete query string). A fetch is modelled by its result: `CardFetched(data)` or `CardFetchFailed`, and `SuggestFetched(data)` or `SuggestFailed`.
- Responses without a `name` field, such as an error object returned with an HTTP error status. `fetch` does not reject these. The model's response always carries a name.
- `async`/`await`, React state batching and effect scheduling. Each handler is one atomic transition. As a result, an autocomplete response that arrives after the input has become shorter, or out of order, is modelled only as a later `Suggestions` event.
- Canvas drawing, image loading and decoding, and `crossOrigin`. Only the rectangle arithmetic and its effect on pixels are modelled. A row the overlay's top edge cuts through is treated as visible; the canvas would blend it.
- Mask.Overlay: uses exact real arithmetic for `canvas.height * (revealed / 10)`, an idealisation of JavaScript doubles.
- Text.Lower: folds only A–Z and the Latin-1 capitals U+00C0–U+00DE (except U+00D7). It is weaker than JavaScript's full Unicode `toLowerCase`, which also changes other scripts and can change length.
- `alert` and `console.error` messages, JSX markup, and the Patreon link. These are presentation only. The alert a submission raises is kept as its `Outcome`.
- The `loading` flag. game..js shows a loading screen while a card fetch is pending (game..js:80-82), which removes the form and both buttons, so no event reaches the handlers then. src/game.js sets the flag (src/game.js:16, src/game.js:33) but never reads it. Each load is modelled as one atomic transition, so no state has a fetch pending.
- A second pending load in src/game.js. Start Game stays clickable while the first fetch runs, so two clicks issue two fetches. The later `setCard` and counter resets (src/game.js:22-28) can then land after guesses were made and reset an open round. The model's load is atomic and cannot express this.
- Image-decode failure reporting and superseding of concurrent card loads. Neither component implements them.
