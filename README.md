# Behaviour of the land-justice history page, in Dafny

`script.js` wires up an informational page. Most of it hands configuration to browser
libraries. A small core has behaviour that can be stated, and this project models and
proves it:

- **The modal dialog** (`openModal`, `closeModal`, `trapFocus`). There is one `#modal`
  container and one `#modal-backdrop`. Opening captures the focused element into
  `lastActiveElement`, renders a header (title and close button) followed by the body,
  shows both surfaces, focuses the container and installs a focus trap. Closing hides
  both surfaces, clears the content and refocuses the captured element. The trap wraps
  Tab from the last focusable element to the first and Shift+Tab from the first to the
  last. Escape closes the dialog. The trap listens on the container, so it sees only keys
  pressed while focus is on the container or inside it; other keys change nothing.
  `Modal` gives this state once as a value, `ModalState`, with one transition per
  operation and lemmas about the transitions. The class `Modal.ModalManager` holds the
  same state in mutable fields. Its methods are proved to perform exactly those
  transitions and to keep the invariant.
- **Quiz grading** (`Quiz`, built on `JsText`). There is one point for an answer whose
  `trim()` is `"1992"`. There is one point for an answer whose `toLowerCase()` includes
  `"native"`.
- **The stored lists** (`Records`). The research log appends `{date, task, notes}` only
  when both a date and a task are truthy. A pledge is always appended, under the name
  `'Anonymous'` when the name field is empty.
- **The quote carousel** (`Carousel`). An index starts at 0 and steps by
  `(i + 1) % quotes.length`.
- **The audio button** (`Audio`). Each click flips `aria-pressed` between `"true"` and
  `"false"` and changes the button text.
- **The handlers that use the dialog** (`Page`). These are the timeline cards, the quiz,
  the research log and the pledge. Several of them re-open the dialog while it is still open.

Elements are opaque identities (`Dom.Element`). Markup is opaque text. Of a piece of
markup, the model keeps only the focusable elements the browser finds in it, in document
order (`Dom.Markup`). The title is spliced into the header unescaped, so it is markup as
well. So the trap's list is the title's controls, the header's close button, then the
body's controls. Browser I/O becomes parameters: the answers to `prompt()`, the current
time for a pledge, and the focus moves the browser makes on its own (`MoveFocus`).

Facts about the code that the model follows:

- A storage key that is absent reads as `'[]'`. A key that holds malformed text makes
  `JSON.parse` throw; that path is not modelled.
- `lastActiveElement` is never cleared. Every open overwrites it, including a re-open
  while the dialog is shown.
- The trap's list is never empty, because the header always holds the close button
  (`Modal.Focusables`).
- `openModal` and `closeModal` do not check that `#modal` and `#modal-backdrop` exist.
- The only charts are Chart.js calls; they are not modelled.

## Model

| member | source | states |
|---|---|---|
| `Modal.Focusables` | script.js:253-273 | the trap's list for a dialog is the title's controls, then the close button, then the body's controls, all in document order; so it is never empty and it starts with the close button when the title holds no markup; the container itself is never in it |
| `Modal.Initial` | script.js:249-251 | on page load both surfaces are hidden, nothing is captured (`lastActiveElement = null`), no trap exists, and the invariant holds |
| `Modal.Opened` | script.js:252-262 | whatever the state before, an open leaves modal and backdrop shown, the new dialog in the modal, the previously focused element captured, focus on the container, and a trap over that dialog's focusables |
| `Modal.Closed` | script.js:263-268 | whatever the state before, a close leaves both surfaces hidden and the content cleared, moves focus to the captured element when there is one (and leaves it where it was otherwise), and keeps the captured element and the installed trap |
| `Modal.AfterKey` | script.js:274-284 | a key press inside the modal keeps the invariant |
| `Modal.RunKeepsInv` | script.js:248-287 | no sequence of opens, closes, key presses and focus moves, in any order, breaks the invariant (the surfaces are shown together, exactly while a dialog is shown, with the matching trap) |
| `Modal.OpenShowsDialog` | script.js:253-273 | after an open the trap runs from the title's first control (the close button when the title has none) to the body's last control (the close button when the body has none) |
| `Modal.ReopenOverwritesCapture` | script.js:252-253 | a re-open while a dialog is shown overwrites the captured element, so the next close refocuses the element focused at the re-open, not the one before the first open |
| `Modal.CloseAfterOpenRestoresFocus` | script.js:252-268 | close straight after open returns focus to the element focused before the open; the branch where nothing was focused exists only for a document without a body, which the page never is |
| `Modal.RunKeepsCapture` | script.js:252-268 | focus moves, key presses and closes, in any number and order, leave the captured element as the last open set it |
| `Modal.CloseRestoresFocusAfterEvents` | script.js:252-268 | a close after an open returns focus to the element focused before the open, whatever focus moves and key presses came in between |
| `Modal.CloseIdempotent` | script.js:263-268 | close keeps the captured element, so a second close gives the same state as one |
| `Modal.EscapeCloses` | script.js:281-285 | Escape reaching an open dialog's listener, which it does whenever focus is on the container or inside the dialog, gives exactly the state that close gives |
| `Modal.KeyOutsideIgnored` | script.js:285 | a key pressed with focus outside the container never reaches the trap and changes nothing, so an open dialog stays open |
| `Modal.KeyWithNothingOpen` | script.js:263-285 | with no dialog open and focus outside the hidden container, every key, Escape included, changes nothing |
| `Modal.EscapeWhenHidden` | script.js:281-285 | Escape reaching the trap's listener after a close shows nothing and keeps the content cleared and the capture intact |
| `Modal.TabOnLastWraps` | script.js:278-280 | Tab on the last focusable element moves focus to the first one and changes nothing else |
| `Modal.ShiftTabOnFirstWraps` | script.js:276-277 | Shift+Tab on the first focusable element moves focus to the last one and changes nothing else |
| `Modal.TrapPassesElsewhere` | script.js:274-284 | in every other position, and for every key other than Tab and Escape, the trap changes nothing |
| `Modal.NoWrapFromContainer` | script.js:257-280 | right after an open the container has focus, and neither Tab nor Shift+Tab is intercepted |
| `Modal.ModalManager.constructor` | script.js:249-251 | the manager starts in the page-load state |
| `Modal.ModalManager.Open` | script.js:252-262 | performs the open transition: captures the old focus, shows the dialog on both surfaces, focuses the container, installs the trap, keeps the invariant |
| `Modal.ModalManager.Close` | script.js:263-268 | performs the close transition and keeps the captured element |
| `Modal.ModalManager.HandleKey` | script.js:274-285 | performs the key transition of the current trap; it prevents the default exactly when it wraps focus |
| `JsText.LeadingSpace` | script.js:164 | the count of leading characters that `trim` removes: all of them white space, and the next one is not |
| `JsText.TrailingSpace` | script.js:164 | the same for the trailing characters |
| `JsText.Trim` | script.js:164 | `trim()` returns a slice of the input with only white space cut off either end, and a non-empty result neither starts nor ends with white space |
| `JsText.LeadingSpaceIs` | script.js:164 | the leading white space is determined by the text: any white-space prefix followed by a non-white-space character is it |
| `JsText.TrailingSpaceIs` | script.js:164 | the same for the trailing white space |
| `JsText.TrimUnique` | script.js:164 | every split of the text into white space, a core without white space at its ends, and white space has that core as `trim()` |
| `JsText.TrimPadded` | script.js:164 | white space around a trimmed text is removed and the text returned unchanged |
| `JsText.LowerChar` | script.js:165 | lower-casing a character maps A-Z to a-z and leaves no upper-case ASCII letter |
| `JsText.ToLower` | script.js:165 | `toLowerCase()` keeps the length and lower-cases each character in place |
| `JsText.ToLowerIdempotent` | script.js:165 | lower-casing twice gives the same as lower-casing once |
| `JsText.Includes` | script.js:165 | `includes(t)` holds exactly when `t` occurs at some position of the text |
| `JsText.IncludesInContext` | script.js:165 | a text includes every piece it is built around |
| `Quiz.Score` | script.js:163-165 | the score is at most 2; it is 2 exactly when both answers are right and 0 exactly when neither is |
| `Quiz.PaddedYearIsRight` | script.js:164 | "1992" with any white space around it earns the first point |
| `Quiz.MentioningNativeIsRight` | script.js:165 | any answer containing a word that lower-cases to "native", in any letter case, earns the second point |
| `Quiz.SampleAnswerIsRight` | script.js:149-165 | the sample answer the quiz suggests, "Native Title Act", earns the second point |
| `Quiz.ScoreIgnoresCase` | script.js:165 | lower-casing the second answer first does not change the score |
| `JsText.ToLowerAppend` | script.js:165 | lower-casing distributes over concatenation |
| `JsText.ToLowerConcat` | script.js:165 | lower-casing a text built from three pieces lower-cases each piece |
| `Records.WithLogEntry` | script.js:193-196 | the log grows by exactly one entry `{date, task, notes}`, placed last, exactly when date and task are truthy; earlier entries are unchanged; otherwise the log is unchanged |
| `Records.PledgeName` | script.js:221 | the recorded name is the typed name when one was typed and exactly 'Anonymous' for an empty field, so it is never empty |
| `Records.LogOnlyGrows` | script.js:193-196 | after any series of Add Entry clicks the old log is a prefix of the new one |
| `Records.RecordStore.constructor` | script.js:194 | the store starts with the given contents of its two keys |
| `Records.RecordStore.AppendLog` | script.js:194-196 | the research log gains the entry at its end and the pledges are untouched |
| `Records.RecordStore.AppendPledge` | script.js:222-224 | the pledge list gains the pledge at its end and the research log is untouched |
| `Carousel.NextIndex` | script.js:130 | one step stays below the number of quotes; it moves to the next quote and wraps from the last to the first |
| `Carousel.IndexAfter` | script.js:125-131 | after any number of steps the index is a valid quote index |
| `Carousel.IndexAfterInOrder` | script.js:125-131 | the first steps show the quotes in list order, starting with the first |
| `Carousel.IndexAfterPeriodic` | script.js:129-131 | after as many steps as there are quotes, the carousel is back at the same quote |
| `Carousel.EveryQuoteShown` | script.js:125-131 | every quote is shown once in every round |
| `Carousel.QuoteCarousel.constructor` | script.js:125-128 | the carousel starts at index 0 showing the first quote |
| `Carousel.QuoteCarousel.Tick` | script.js:129-132 | each interval steps the index by the rotation rule and shows that quote, and the index is the one after that many steps |
| `Audio.Toggled` | script.js:235-243 | a click leaves `aria-pressed` as "true" or "false", and on exactly when it was not on before |
| `Audio.ToggleTwice` | script.js:235-243 | two clicks restore "true" or "false"; the first click from an absent or other value switches on |
| `Audio.AudioToggle.Click` | script.js:234-245 | the button's state flips and its text says which state it is in |
| `Page.OrEmpty` | script.js:111-113 | `x || ''` is the string when it is truthy and `''` otherwise; keeping a present empty string as it is gives the same result |
| `Page.OpenTimelineCard` | script.js:110-115 | a card opens the dialog titled "year — heading" on its paragraph; the focusable elements of both spliced texts are parameters |
| `Page.OpenQuiz` | script.js:138-157 | the quiz button opens the dialog on the quiz form with its two inputs and two buttons |
| `Page.SubmitQuiz` | script.js:159-166 | Submit grades the answers as `Score` does and re-opens the dialog on the result, capturing the element focused at that moment |
| `Page.OpenResearchLog` | script.js:174-187 | the research button opens the dialog on the table followed by its two buttons |
| `Page.SubmitLogEntry` | script.js:189-199 | with a date and a task, the entry is stored and the dialog is closed and re-opened on the given table, and the original capture survives; otherwise neither the store nor the dialog changes |
| `Page.OpenPledge` | script.js:207-218 | the pledge button opens the dialog on the pledge form |
| `Page.SubmitPledge` | script.js:220-225 | Sign always stores `{name, date}` under the typed name or 'Anonymous' and re-opens the dialog on the thanks, overwriting the capture |
| `Page.QuizRoundTrip` | script.js:157-166 | a quiz opened from a button and submitted from its Submit button leaves that Submit button, which the result dialog removed, as the element closing refocuses; closing never refocuses the opener |

## Left out

- Chart.js charts, AOS initialisation, smooth scrolling, the stat pulse with its
  IntersectionObserver, and the `alt` text for figures: configuration and calls into
  browser libraries.
- Timing: `setInterval`, `setTimeout` and when handlers run. Only the index update and the
  toggle state are modelled.
- Audio playback: `play()`, its swallowed rejection, and `pause()`.
- HTML templating. Markup is opaque text plus the focusable elements in it. The code does
  not escape text it splices into markup, and the model claims no sanitising: wherever
  page or user text lands in a body, its focusable elements are a parameter.
- JSON serialisation and `localStorage`. Each list is a sequence. A key that is present
  but malformed makes `JSON.parse` throw; this is not modelled.
- Listener accumulation. Each open adds another `keydown` listener to the container,
  because each `trapFocus` call creates a new `handleKey` closure. The old listeners keep
  stale first and last elements. Only the current trap is modelled. The backdrop's
  `click` listener is the same `closeModal` function every time, so the browser keeps a
  single registration. A stale listener that sees Escape closes once more, and
  `Modal.CloseIdempotent` shows the extra closes change nothing; a stale listener's Tab
  wrapping is not modelled.
- Element identity across re-renders. A body control is named by its key, so the same
  key in two successive dialogs is one element in the model.
- `Modal.ModalManager.Close`, `Modal.Closed`, `Modal.CloseAfterOpenRestoresFocus`,
  `Modal.CloseRestoresFocusAfterEvents`, `Modal.ReopenOverwritesCapture` and
  `Page.QuizRoundTrip`: `focus()` always succeeds in the model. In a browser, focusing an
  element that a re-render has removed, or that is hidden, does nothing; the Submit
  button that `Page.QuizRoundTrip` refocuses is such an element.
- `Modal.ModalManager.HandleKey` is the listener itself. Whether a key reaches it, which
  depends on where focus is, is decided by `Modal.InModal` in `Modal.Step`.
- `JsText.ToLower`: maps only the ASCII letters A-Z. Unicode case mapping is not modelled.
  Outside ASCII, only U+0130 (to "i" plus a combining dot) and the Kelvin sign (to "k")
  lower-case to an ASCII letter, and neither can complete "native", so the quiz's second
  point is the same.
- The browser's own focus movement (clicks, Tab between middle elements) is an input
  (`Modal.ModalManager.MoveFocus`), not a model of navigation order.
- Absent page elements. Each optional feature is wired only if its element exists, and
  the model assumes all of them exist.
