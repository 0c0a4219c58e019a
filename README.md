# Colour palette generator — a Dafny model

The application is a single React component. The user describes a scene, picks one of
five colour-harmony schemes from a dropdown and asks a text-completion service for "a
scheme of 5 HEX codes". The component pulls every hex code out of the completion text
with the pattern `#?[0-9A-Fa-f]{6}` (global flag), shows the first five as swatches
(grey `#eeeeee` where there is none) and copies a swatch's value to the clipboard on
click, echoing it in a toast that a 2-second timer hides again.

The model has five modules:

- `Options` (`options.dfy`): `Option`, standing for JavaScript's `null`/`undefined`.
- `JsStrings` (`js_strings.dfy`): `String.prototype.trim` over the ECMAScript white-space
  and line-terminator characters.
- `HexCodes` (`hex_codes.dfy`): the global regular-expression scan. `ScanFrom` walks the
  text left to right. At each position it takes `#` plus six hex digits, else six hex
  digits, else moves one character on; after a match it resumes at the match's end.
  `MatchAll` is `String.prototype.match` with the global flag: `None` (null) when
  nothing matches.
- `Palette` (`palette.dfy`): the scheme labels, the prompt template, the gating of a
  generation, the colour list a completion yields and the five swatch backgrounds.
- `ColourApp` (`colour_app.dfy`): the component's state as a value `AppState` with one
  pure transition function per event, and the class `App`. Its fields are the state
  variables and the timer ref; its methods are the event handlers and update the fields
  in place. Each method's contract ties the new state to the transition function, and
  the lemmas about those functions state what the component promises.

The hide timer is modelled by its ids. The ref `timer` holds the id of the last timer
scheduled. `pendingTimers` is the host's set of timers still to run. `nextTimerId` is
the id the next `setTimeout` returns. Ids start at 1, so a ref holding one is truthy.
A click is modelled as the element's own handler followed by the window's click
listener. A disabled form control (the two buttons and the description field) dispatches
no click at all, so neither its handler nor the window listener runs.

Some behaviours differ from what the markup or the labels suggest; the model follows
what the code does:

- The swatch container and the swatches carry a `disabled` attribute, which suggests
  they are inert, but it has no effect on a `div`. Swatches can be clicked while loading or with an empty list.
- A click on a swatch past the end of the list copies `undefined`, not the grey
  placeholder one might expect, since that is what it shows. `copiedColour` is therefore an `Option`.
- Clicking the caret icon inside the dropdown button, unlike clicking its label, opens
  nothing. The button's
  handler toggles the list, then the window listener closes it again, because the
  event's target is the icon and not the button.
- The timer callback only hides the toast; it does not reset the ref. The spent id
  stays there, and the next copy passes it to `clearTimeout`, which then does nothing.
- There is a single colour list, replaced by each generation. No earlier palettes are
  kept.

## Model

| member | source | states |
|---|---|---|
| HexCodes.MatchLengthAt | src/App.js:55 | Computes the length of the pattern's match at one position: 7 for `#` plus six hex digits, else 6 for six hex digits, else 0. |
| HexCodes.MatchLengthSpec | src/App.js:55 | A match at a position is a hex code (six hex digits, optionally after `#`) read from the text there, and it is the longest one: whenever a hex code starts there, a match of at least its length is made, so the optional `#` is always taken when it can be. |
| HexCodes.ScanFrom | src/App.js:55 | Computes the hits of the global scan from a position: a match where the pattern succeeds, resuming at its end, else one character on. |
| HexCodes.ScanSound | src/App.js:55 | Each hit of the scan lies inside the text, is a match at its start with that length, and the hits come in increasing order without overlap. |
| HexCodes.MatchesAreHexCodes | src/App.js:55 | Every string `match` returns is either six hex digits or `#` followed by six, and a non-null result is non-empty. |
| HexCodes.MatchesOccurInOrder | src/App.js:55 | The matches are substrings of the text copied verbatim (case kept), found at strictly increasing, non-overlapping positions. |
| HexCodes.ScanCoversRun | src/App.js:55 | Every run of six hex digits at or after the scan's start has its first digit inside some hit. |
| HexCodes.NoMatchIffNoHexRun | src/App.js:55-56 | `match` returns null exactly when the text contains no six hex digits in a row. |
| HexCodes.ScanTakesHash | src/App.js:55 | A `#` followed by six hex digits is matched with its `#` when the scan starts at or before the `#`. |
| HexCodes.HashIsCaptured | src/App.js:55 | A `#` before six hex digits is always part of a match: `#` plus those six is among the results. |
| HexCodes.ScanSkipsBlanks | src/App.js:54-55 | Leading white space never starts a match, so the scan may skip it. |
| HexCodes.MatchLengthShift | src/App.js:54-55 | The match at a position does not depend on the characters before it. |
| HexCodes.ScanShift | src/App.js:54-55 | Scanning a suffix finds the same hits, shifted by the suffix's offset. |
| HexCodes.ScanIgnoresTail | src/App.js:54-55 | Characters past the last hex digit cannot change the hits. |
| HexCodes.TextsShifted | src/App.js:54-55 | The strings of shifted hits in the text equal the strings of the hits in the extracted slice. |
| HexCodes.TrimmedScan | src/App.js:54-55 | The scan of a text is the scan of its trimmed form, shifted by the leading white space. |
| HexCodes.TrimKeepsMatches | src/App.js:54-55 | Trimming the completion text before `match` never changes the result. |
| HexCodes.Texts | src/App.js:55 | Computes the matched strings: the text's slice for each hit, in order. |
| HexCodes.MatchAll | src/App.js:55 | Computes `match` with the global flag: null when the scan finds nothing, else the matched strings in order. |
| HexCodes.NoHexDigitNoMatch | src/App.js:55 | A text without any hex digit makes `match` return null. |
| HexCodes.RefusalExample | src/App.js:55 | `match` on a refusal without hex digits returns null. |
| HexCodes.LongRunExample | src/App.js:55 | Twelve hex digits give two matches; seven give one, the first six. |
| JsStrings.Trim | src/App.js:54 | The result is a slice of the input with only white space cut at both ends, and it neither starts nor ends with white space. |
| JsStrings.TrimIdempotent | src/App.js:54 | Trimming twice equals trimming once. |
| Palette.Scheme.Name | src/App.js:115-123 | Gives each scheme the label its dropdown option sets and the button shows. |
| Palette.Prompt | src/App.js:45 | Computes the prompt: the template with the scheme's label and the description inserted verbatim. |
| Palette.PromptInjective | src/App.js:45 | Different schemes or descriptions always give different prompts: both are recoverable from the prompt. |
| Palette.PromptLayout | src/App.js:45 | The prompt starts with `A ` and the scheme label, holds the description unescaped, and ends with a closing quote. |
| Palette.EnterStarts | src/App.js:62-66 | Says whether a key press starts a generation: the key is Enter and the description is non-empty. |
| Palette.SearchDisabled | src/App.js:100 | Says whether the search button is disabled: empty description or a generation running. |
| Palette.EnterAgreesWithSearchButton | src/App.js:61-100 | While idle, Enter starts a generation exactly when the search button is enabled, which is exactly when the description is non-empty. |
| Palette.Extracted | src/App.js:54-55 | Computes the result of `match` on the trimmed completion text, or null when there is no text. |
| Palette.PaletteOf | src/App.js:41-58 | Computes the colour list after a generation: the matches, else the empty list set at its start. |
| Palette.PaletteEmptyIffNoHexRun | src/App.js:41-58 | After a generation the list is empty exactly when the response has no text or no six hex digits in a row. |
| Palette.PaletteIsHexCodesInOrder | src/App.js:54-58 | The colours after a generation are hex codes taken in order, verbatim and without overlap from the completion text. |
| Palette.SwatchAt | src/App.js:135 | Computes a swatch's background: the entry at that index, or `#eeeeee` when it is missing or empty. |
| Palette.Swatches | src/App.js:130-135 | Computes the five swatch backgrounds, one per index from 0 to 4. |
| Palette.CopiedValue | src/App.js:136 | Computes what a swatch click copies: the entry at that index, or `undefined` past the end. |
| Palette.SwatchesShowFirstFive | src/App.js:130-135 | Exactly five swatches: the first five colours in order, padded with `#eeeeee`; colours past the fifth are not shown. |
| Palette.SwatchesAreHexCodes | src/App.js:130-135 | When the list holds only hex codes, every swatch background is a hex code. |
| Palette.CopyMatchesSwatch | src/App.js:135-136 | A swatch showing a colour copies that colour; a swatch past the end of the list copies `undefined`. |
| Palette.NoHexRunAllPlaceholders | src/App.js:130-135 | A completion without a hex run leaves five placeholder swatches. |
| Palette.CompletionSwatches | src/App.js:130-135 | After a completion, swatch i shows the i-th colour found in the text, then the placeholder. |
| ColourApp.AfterType | src/App.js:89-93 | Computes the state after typing: the new description, unless the field is disabled while loading. |
| ColourApp.AfterStart | src/App.js:41-42 | Computes the state when a generation starts: empty list, loading set. |
| ColourApp.AfterFinish | src/App.js:52-58 | Computes the state after the response: loading reset, the list replaced only when something matched. |
| ColourApp.AfterKeyDown | src/App.js:61-72 | Computes the state after a key press: a generation starts on Enter with a non-empty description, and any other key changes nothing. |
| ColourApp.AfterCopy | src/App.js:74-84 | Computes the state after a copy: value echoed and shown, the ref's timer cancelled, a new timer scheduled and kept in the ref. |
| ColourApp.AfterFire | src/App.js:81-83 | Computes the state after a hide timer runs: toast hidden, that timer no longer scheduled, ref unchanged. |
| ColourApp.Delivered | src/App.js:89-112 | Says whether a click reaches its target: the search button only when enabled, the description field, the dropdown button and its caret only while not loading. |
| ColourApp.AfterHandler | src/App.js:99-136 | Computes the effect of the target's own click handler: start a generation, toggle the dropdown, pick a scheme while the list is open, or copy a swatch. |
| ColourApp.AfterWindowClick | src/App.js:26-30 | Computes the effect of the window listener: the dropdown closes unless the target is the dropdown button. |
| ColourApp.AfterClick | src/App.js:25-136 | Computes the state after a click: nothing when it is not delivered, else the target's handler followed by the window listener. |
| ColourApp.ClickPrompt | src/App.js:45-100 | Gives the prompt a click sends: the template for the current scheme and description when the click reaches an enabled search button, else none. |
| ColourApp.KeyDownPrompt | src/App.js:45-72 | Gives the prompt a key press sends: the template when Enter starts a generation, else none. |
| ColourApp.DisabledFieldClick | src/App.js:26-30 | A click on the description field while it is disabled changes nothing, an open dropdown included; while enabled it only closes the dropdown. |
| ColourApp.InitialIsValid | src/App.js:14-23 | The first-render state is idle with an empty list and no scheduled timer, and satisfies the invariant. |
| ColourApp.InputPreservesValid | src/App.js:37-93 | Typing, Enter and a completion keep the invariant: empty list while loading, at most one scheduled hide timer, the one in the ref. |
| ColourApp.ClickPreservesValid | src/App.js:25-136 | Every click keeps the same invariant. |
| ColourApp.CopyArmsOneTimer | src/App.js:74-84 | A copy sets the echoed value, shows the toast and leaves exactly one scheduled timer, the new one, held in the ref. |
| ColourApp.SecondCopyCancelsFirst | src/App.js:78-83 | A second copy clears the first copy's timer: one timer stays scheduled and the toast shows the second value. |
| ColourApp.FireHidesOnce | src/App.js:81-83 | The timer that fires is the one in the ref; it hides the toast, keeps the copied value and leaves no timer scheduled. |
| ColourApp.FinishGivesPalette | src/App.js:52-58 | After a completion loading is off and the list is the palette of the response. |
| ColourApp.RefusalLeavesPlaceholders | src/App.js:52-58 | A completion refusing without hex digits resets loading, leaves the list empty and all five swatches on the placeholder. |
| ColourApp.GenerationRoundTrip | src/App.js:37-58 | The search button sends the templated prompt, empties the list and sets loading; the completion restores every other field and sets the palette. |
| ColourApp.LoadingBlocksRequests | src/App.js:89-100 | While loading no click or key starts another request and typing changes nothing. |
| ColourApp.GenerationGate | src/App.js:61-100 | Enter or the search button start a generation exactly when the description is non-empty and none is running. |
| ColourApp.SelectThenGenerate | src/App.js:115-123 | Picking a scheme sets it and closes the dropdown; the next generation's prompt names it. |
| ColourApp.DropdownClicks | src/App.js:25-112 | The dropdown button toggles the list; every other delivered click closes it, the caret icon included. |
| ColourApp.App.constructor | src/App.js:14-23 | The object starts in the first-render state. |
| ColourApp.App.Type | src/App.js:89-93 | The description becomes the typed text unless the field is disabled. |
| ColourApp.App.StartGeneration | src/App.js:41-45 | Empties the list, sets loading and returns the prompt for the current scheme and description. |
| ColourApp.App.FinishGeneration | src/App.js:52-58 | Resets loading and sets the list to the palette of the response. |
| ColourApp.App.HandleKeyDown | src/App.js:61-72 | Enter with a non-empty description starts a generation and returns its prompt; any other key changes nothing. |
| ColourApp.App.CopyToClipboard | src/App.js:74-84 | Updates the fields as a copy does and leaves only the new timer scheduled. |
| ColourApp.App.FireHideTimer | src/App.js:81-83 | Hides the toast and leaves no timer scheduled. |
| ColourApp.App.HandleWindowClick | src/App.js:26-30 | Closes the dropdown unless the target is the dropdown button. |
| ColourApp.App.Click | src/App.js:25-136 | Runs the target's handler, then the window listener, and returns the prompt when a generation starts. |
| ColourApp.ClipboardEchoScenario | src/App.js:74-84 | Two copies in a row followed by the one hide timer still scheduled: the first timer is cancelled, the toast shows the second value and is then hidden, with no timer left. |

## Left out

- The completion request: the service, its parameters and the API key are not modelled. The response text is an input of `FinishGeneration`, and `None` stands for a response without text.
- `ColourApp.App.FinishGeneration`: a response without a `choices` array makes the source throw after loading has been reset, so the list keeps the empty value set when the generation started. The model treats it like a response without text, which gives the same state; only the unhandled rejection is not modelled.
- A failed request rejects before loading is reset, so in the source loading stays set for good and the page cannot start another generation. The model has no failure path.
- Overlapping generations: the model has none, because the search button and the field are disabled while loading.
- The clipboard write is an I/O call and is not modelled. Only the echoed value is.
- Real time: the 2000 ms delay is not modelled. A timer fires when `FireHideTimer` is called with a scheduled id.
- Rendering: JSX, class names, styles and the toast text are left out. Only the swatch backgrounds and the prompt are modelled.
- The input's `onSubmit`: an input element never receives a submit event, so it does nothing.
- `useEffect` registration: the window listener is modelled as always installed, as it is after mount.
- JavaScript strings are UTF-16; the model uses Dafny characters. The pattern and the trim set lie in the basic plane, so this makes no difference here.
- The icon components in `src/images/` are not part of this model.

