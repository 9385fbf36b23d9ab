# NYT Connections definer, modelled in Dafny

A browser extension for the NYT Connections game. The content script watches
which word tiles are selected; when the selection changes it shows a floating
overlay with one dictionary card per word. The toolbar popup asks the page
for the selected words and lists a definition for each. This project models
the decisions both scripts make, and proves what they promise:

- **Selection** (`selection.dfy`): the runtime message handler that answers
  with the selected tiles' texts, and the empty-text filter used by the
  auto-define pipeline.
- **Lookup** (`lookup.dfy`): the content script's `fetchDefinitions`. It is a
  sequential loop that builds one record per word, in order. A failed lookup
  gives a fixed placeholder record. The HTTP request and JSON parsing are a
  lookup oracle `string -> Response`.
- **Dictionary** (`dictionary.dfy`): the entry shape both scripts read; the
  phonetic-text and audio-URL precedence; when reading an entry throws; the
  `https:` prefix for audio URLs.
- **Details** (`details.dfy`): the meanings list both scripts build with
  nested loops. It is proved lossless by reading it back, and the
  pronunciation line with its audio button is part of it.
- **Overlay** (`overlay.dfy`): what `showPopover` decides. This covers the
  header, the cards or the "No definitions found." message, each card's
  summary, the anchor rule, and each card's More/Less toggle.
- **AutoDefine** (`autodefine.dfy`): `updatePopover` as a class. It holds the
  last selection and the one overlay. Its invariant `Valid()` is kept by
  `Update`, `Refresh`, `Close` and `ToggleDetails`. The loading overlay that
  `Refresh` shows for a moment has one card however many words there are,
  so for a selection of two or more words it does not satisfy `Valid()`;
  `Refresh` does not need it to midway, and the populated overlay that
  replaces it does.
- **Popup** (`popup.dfy`): the page gating and its error messages,
  `showError`, the per-word result loop and `displayDefinition`, as a class
  over the popup's three page elements.

The content script reads only the marked tiles. It has no text-selection
fallback and no limit on the number of words.

The overlay cards use the corrected short-definition rule of the Findings
section below: a placeholder record shows its fallback text where
src/content/content.js:79 shows "". On every record a successful lookup
produces, the two rules agree (`Overlay.CardMatchesSourceOnLookups`).

## Model

| member | source | states |
|---|---|---|
| Selection.TileText | src/content/content.js:26 | a tile's word is its `innerText` when that is non-empty, and its `textContent` otherwise; empty only when both are |
| Selection.HandleMessage | src/content/content.js:15-34 | the action "get_selected_words" gets a reply, and no other action does; the reply has one text per selected tile, in document order, with nothing dropped |
| Selection.NonEmpty | src/content/content.js:185 | `filter(Boolean)`: keeps exactly the non-empty strings; empty iff every input is empty; keeps a list that has no empty string |
| Selection.SelectedWords | src/content/content.js:184-185 | the auto-define words are non-empty; a string is among them iff it is the non-empty text of some selected tile; there are none iff every tile's text is empty; when no tile text is empty they are exactly the tile texts, in order |
| Selection.SelectedWordsAppend | src/content/content.js:184-185 | the words of two runs of tiles are the first run's words followed by the second's, so the words keep document order |
| Selection.NonEmptyAppend | src/content/content.js:185 | filtering distributes over concatenation, so it keeps the tiles' order |
| Selection.NonEmptyIdempotent | src/content/content.js:185 | filtering twice is filtering once |
| Dictionary.FirstTruthy | src/content/content.js:165 | `find` then `|| ''`: "" iff every string is empty; otherwise the first non-empty string |
| Dictionary.PhoneticOf | src/content/content.js:168 | the entry's `phonetic` when it is truthy; else the text of the first phonetics item with a text; else "" |
| Dictionary.AudioOf | src/content/content.js:165 | the audio of the first phonetics item with an audio URL; "" iff no item has one |
| Dictionary.PlayableUrl | src/content/content.js:133 | a URL that starts with "http" is kept; any other starts with "https:" followed by exactly the given URL; the result always starts with "http" |
| Dictionary.SchemeRelativeGetsHttps | src/popup/popup.js:143 | a scheme-relative URL "//host/path" becomes "https://host/path" |
| Dictionary.PlayableUrlIdempotent | src/popup/popup.js:143 | making an already playable URL playable changes nothing |
| Details.RenderMeanings | src/content/content.js:87-100 | the nested loops produce the meanings list: per meaning its part of speech, then each definition with its example when truthy, in order |
| Details.RegroupDetailLines | src/popup/popup.js:104-117 | the rendered meanings list reads back to exactly the meanings it was built from, so every meaning and every definition is listed, in order |
| Details.DetailLinesStartWithHeading | src/content/content.js:87-100 | the rendered list is empty iff there are no meanings, and otherwise opens with the first meaning's part of speech, so no item precedes a heading and reading back drops nothing: with `RegroupDetailLines`, nothing is added |
| Details.PronunciationOf | src/popup/popup.js:126-132 | the phonetic line is shown iff the phonetic text is non-empty; the audio button inside it iff both phonetic and audio are non-empty |
| Lookup.Placeholder | src/content/content.js:174 | the failure record: the requested word, empty phonetic, audio and origin, no meanings, and the text "No definition found." |
| Lookup.Normalize | src/content/content.js:157-175 | an unreadable response gives the placeholder. A non-ok status, a thrown fetch or parse, an empty array or a missing `phonetics` all count as unreadable. A readable one gives the first entry's own word, phonetic, audio, meanings and origin, with no fallback text |
| Lookup.Definitions | src/content/content.js:154-178 | one record per word, in input order, each the normalised lookup of that word |
| Lookup.FetchDefinitions | src/content/content.js:154-178 | the sequential loop returns exactly `Definitions(words, lookup)`: one record per word, in input order |
| Lookup.FailedLookupHasFallback | src/content/content.js:161 | a word whose lookup is not ok gets a record with no meanings and the fallback text |
| Lookup.DefinitionsAppend | src/content/content.js:156 | the records of a concatenated selection are the concatenated records |
| Overlay.Capitalize | src/content/content.js:67 | same length; the first character becomes its upper-case letter ('a'..'z' to 'A'..'Z', code minus 32) and any other first character is kept; the rest is unchanged |
| Overlay.CapitalizeIdempotent | src/content/content.js:67 | capitalising twice is capitalising once |
| Overlay.Capitalized | src/content/content.js:67 | `words.map(...)`: one capitalised word per word, in order |
| Overlay.SplitJoin | src/content/content.js:67 | joining a non-empty list of parts with ", " and splitting at ", " gives the parts back, when no part has a comma |
| Overlay.HeaderListsWords | src/content/content.js:67 | for a non-empty selection whose words have no comma, the header `HeaderText` (the capitalised words joined by ", ") split at ", " is exactly the capitalised selected words in selection order |
| Overlay.ShortDefinitionAsWritten | src/content/content.js:79 | as written: the first definition of the first meaning, else "" |
| Overlay.PlaceholderNoteNotShown | src/content/content.js:79 | as written, the failure card and the loading card (the record `Lookup.Loading` of line 193, with only the loading text) carry a fallback text but show an empty short definition |
| Overlay.ShortDefinition | src/content/content.js:79 | corrected: the first definition of the first meaning when there is one, else the record's fallback text, else "" |
| Overlay.PlaceholderNoteShown | src/content/content.js:174 | corrected: a failed lookup shows "No definition found."; the loading card shows its loading text; a record without fallback text shows what line 79 shows |
| Overlay.CardFor | src/content/content.js:73-106 | a card shows the record's word, its pronunciation line (`PronunciationOf` of its phonetic and audio) and all its meanings. Its short definition is the corrected rule's, and line 79's for every record without fallback text. Its origin block is present iff the origin is non-empty, and then shows exactly the record's origin. Its details start hidden, with the button reading "More..." |
| Overlay.CardMatchesSourceOnLookups | src/content/content.js:79 | for a readable response the card's short definition is line 79's; for an unreadable one the card shows "No definition found." where line 79 gives "" |
| Overlay.AnchorFor | src/content/content.js:112-126 | "top-right" pins the overlay to the corner even when a tile is selected. Otherwise it goes to (scrollY + bottom + 8, scrollX + left) of the first marked tile (`FirstTile`, the `querySelector` of line 112, whether or not its text is empty), or to the corner when there is none |
| Overlay.CardsFor | src/content/content.js:73 | one card per record, in order |
| Overlay.ViewFor | src/content/content.js:62-126 | the header is the capitalised words; "No definitions found." iff there are no records; otherwise one card per record, in order; the anchor is the anchor rule's |
| Overlay.BuildView | src/content/content.js:62-110 | the loop over the records builds exactly `ViewFor`'s overlay |
| Overlay.Toggle | src/content/content.js:142-148 | flips whether the details are shown, sets the label to match ("Less" when shown, "More..." when hidden), and changes nothing else on the card |
| Overlay.ToggleTwice | src/content/content.js:138-150 | toggling a card twice restores it, for a card whose label matches its shown state (every card of a built overlay, by `FreshViewCollapsed` and `ToggleCard`) |
| Overlay.ToggleCard | src/content/content.js:138-150 | a click toggles only the clicked card; header, anchor and every other card are unchanged; labels stay consistent |
| Overlay.ToggleCardTwice | src/content/content.js:138-150 | two clicks on the same card restore the whole overlay |
| Overlay.FreshViewCollapsed | src/content/content.js:84 | every card of a new overlay is collapsed and labelled "More..." |
| Overlay.AudioToPlay | src/content/content.js:130-136 | a card's audio click plays a URL iff the card has an audio button; the URL is that button's audio URL made playable, so it starts with "http" |
| Overlay.CardPlaysRecordAudio | src/content/content.js:74-136 | in a built overlay, card `idx` plays `PlayableUrl` of its record's audio iff the record has both a phonetic text and an audio URL, and plays nothing otherwise |
| AutoDefine.AutoDefiner.constructor | src/content/content.js:39-44 | the settings decide whether updates run; no last selection, no overlay |
| AutoDefine.AutoDefiner.RemovePopover | src/content/content.js:56-59 | afterwards no overlay exists |
| AutoDefine.AutoDefiner.ShowPopover | src/content/content.js:62-151 | the previous overlay is replaced by the one `ViewFor` describes, so at most one exists |
| AutoDefine.AutoDefiner.Update | src/content/content.js:183-196 | the four cases below. When disabled, nothing changes. An empty selection removes the overlay and resets `lastWords` to [], with no lookup. An unchanged selection changes nothing. A changed one sets `lastWords`, shows the loading overlay with its one card, then the overlay of the looked-up records. The one-overlay-per-selection invariant is kept |
| AutoDefine.AutoDefiner.Refresh | src/content/content.js:192-195 | a new selection is recorded first; then comes one loading overlay with its single placeholder card, then the overlay of the words' records, which stays shown; the invariant holds afterwards |
| AutoDefine.AutoDefiner.Close | src/content/content.js:128 | the close button removes the overlay and keeps the last selection |
| AutoDefine.AutoDefiner.ToggleDetails | src/content/content.js:138-150 | a details click replaces the overlay with its one-card toggle; the invariant is kept |
| AutoDefine.AutoDefiner.UpdateTwice | src/content/content.js:191 | a second update on the same tiles changes nothing, so at most one lookup sequence happens |
| AutoDefine.DisabledNeverShows | src/content/content.js:44 | with auto-define off, no update ever creates an overlay |
| Popup.ContainsIff | src/popup/popup.js:33 | `includes` holds iff the path occurs at some position of the url |
| Popup.Dispatch | src/popup/popup.js:29-60 | the words are looked up iff the tab's url has the game path and the page answers with a non-empty word list and no error. Otherwise one error message is shown. A failed tab query or no tab gives the active-tab error. Any other url gives the game-page error. A failed send gives the content-script error. `lastError` gives the reload error. A missing or empty word list gives "No words selected. ..." |
| Popup.OffGamePageIgnoresReply | src/popup/popup.js:53-55 | off the game page (`MessageSent` false: no tab, or a url without the game path, popup.js:33-35) the outcome is an error that does not depend on the page's reply, which is never asked for |
| Popup.GamePageLooksUp | src/popup/popup.js:33-44 | any url containing "nytimes.com/games/connections" with a non-empty reply leads to the lookup of exactly those words |
| Popup.ItemOf | src/popup/popup.js:97-136 | a result item shows the entry's word and pronunciation line. Its origin block is present iff the origin is truthy, and then shows exactly the entry's origin. Its meanings list is exactly `DetailLines` of the entry's meanings, which reads back to those meanings |
| Popup.ResultFor | src/popup/popup.js:72-88 | a word fails iff its response is unreadable, and the item then names that word. Not ok gives `NotFoundText`, `Definition not found for "<word>".` (line 78); a thrown error gives its own message; an array that cannot be read gives the engine's TypeError |
| Popup.Results | src/popup/popup.js:72-89 | one item per word, in input order |
| Popup.AudioToPlay | src/popup/popup.js:139-146 | an item's audio click plays a URL iff it has an audio button; the URL is that button's audio URL made playable, so it starts with "http" |
| Popup.ItemPlaysEntryAudio | src/popup/popup.js:126-146 | an entry's item plays `PlayableUrl` of the entry's audio iff the entry has both a phonetic text and an audio URL, and plays nothing otherwise |
| Popup.PopupPage.ShowError | src/popup/popup.js:21-26 | loading hidden, results cleared, error shown with exactly the given message |
| Popup.PopupPage.DisplayDefinition | src/popup/popup.js:97-148 | appends exactly one found item for the entry |
| Popup.PopupPage.FetchDefinitions | src/popup/popup.js:66-91 | the results are one item per word in input order; loading and error end hidden; the error text is untouched |
| Popup.PopupPage.Open | src/popup/popup.js:29-60 | the page ends in `Dispatch`'s outcome: the error state with its message, or the results of the words |

## Left out

- DOM querying, HTML strings, styles and escaping. The model keeps the rendered structure: header text, cards and items with their fields, meanings as lines, and a shown/hidden flag with its label.
- The HTTP `fetch` and JSON parsing. They are the lookup oracle, and its response is not ok, a thrown error with its message, or a parsed array. A missing `meanings` or `definitions` array is modelled as an empty one, because every reader guards with `Array.isArray`. Non-array fields and `null` array items are not modelled.
- `browser.storage`, `browser.runtime`, `browser.tabs`, the `MutationObserver` and the click listener (src/content/content.js:39-43, 198-205). The settings, the selected tiles, the tab query and the page's reply are inputs. `browser.runtime.lastError` is a flag that comes with the reply. The listener's `return true`, which keeps the reply channel open, is not modelled.
- The stylesheet injection (src/content/content.js:46-53), because it holds no decision.
- Overlapping runs of `updatePopover`, where a stale lookup sequence renders late. Each update is one atomic step, and both of its renders use the same tiles and scroll position.
- Pixel coordinates, which are browser floats. They are integers here.
- Audio playback. Only the URL the player is given is modelled.
- The popup's intermediate states while lookups run. Only the state after the loop is modelled.
- The wording of the TypeError that the script engine raises when an entry cannot be read. It is `EngineTypeError`.
- `console.error` logging in the popup.
- Overlay.Capitalize: upper-cases only ASCII letters. JavaScript's `toUpperCase` also maps other letters, some to two characters ('ß' to "SS").
- src/options/options.js (a settings form whose only logic is the 'auto' default) and src/background.js (a shortcut that opens the popup). The root-level popup.js and content.js are older copies of the src/ files; their gating and phonetic rule are the ones modelled here.

## Findings

| source | as written | input that shows it | evidently intended | confidence | as-written member | corrected member |
|---|---|---|---|---|---|---|
| src/content/content.js:79 | the short definition is read only from the first meaning. The `definition` text put on the failure record (line 174) and the loading record (line 193) is never shown | a word whose lookup fails, such as "zzzxqq123": its card shows the word and an empty short definition. The loading card shows no "Loading..." | the record's fallback text is shown when there is no definition | not executed; medium | Overlay.PlaceholderNoteNotShown | Overlay.PlaceholderNoteShown (the rule `Overlay.ShortDefinition`, which `Overlay.CardFor` and so every overlay of the model uses) |
