# ArcGPT chat window — a Dafny model of its logic

ArcGPT's `aiadvanced.py` is a PySide6 chat window that sends the user's text to
the Gemini API on a worker thread. Almost all of the file is Qt layout and
stylesheet text. This project models the logic inside it as pure functions
and an event-driven state machine, and proves properties of that logic:

- **Configuration** — `load_config`. The defaults are overlaid with the keys of
  `chat_config.json`. A file that is missing or cannot be decoded gives exactly
  the defaults. An accent colour that the colour constructor rejects reverts
  to the default.
- **ApiErrors** — the `except` branch of `GeminiWorker.run`. It maps the text
  of an exception to the message the user sees, using an ordered chain of
  substring rules in which the first match wins.
- **Worker** — `GeminiWorker.run`. The library check and the key check come
  first. The worker then picks a single-turn or a multi-turn call and
  interprets the response: direct text, then the joined parts of the first
  candidate, then the block reason, then "empty response". A run yields
  exactly one `Signal`, because that type has exactly the two alternatives
  `response_received` and `error_occurred`.
- **StatusLabel** — `show_status_message`, `hide_specific_status_message`,
  `hide_status_message` and `update_status_based_on_config`. Pending
  single-shot timers are kept as a multiset of message texts, and a timer
  firing is the explicit `Expire` operation.
- **ChatWindow** — `send_message`, `handle_response`, `handle_error`,
  `on_worker_finished` and `on_settings_changed`, as events on one window
  state. That state holds the history, the enabled flag of the input, the
  label and the phase of the request. The invariant: while no request runs,
  the history alternates user, model, user, model, and so on. This holds as
  long as the settings are not changed while a request is running. The
  settings button stays enabled during a request, and
  `ResetInFlightBreaksAlternation` shows what happens when it is used then.
- **Text** — Python's `in` on strings, the ASCII part of `str.lower()`, and
  `str.strip()` with Python's full set of whitespace characters.

One quirk is reproduced, not corrected. `send_message` copies the history
after it appends the new user turn. So the worker always makes a multi-turn
call, and the history it sends already ends with the prompt that it then
sends again. The single-turn branch of `run` is never reached from the window
(`WorkerRequestRepeatsPrompt`).

Other behaviour of the code that the model keeps as it is:

- `send_message` checks the key and the library itself. When either is missing
  it shows an error and starts no worker, so the worker's own checks are never
  reached from the window.
- `handle_error` removes the last turn only when it is a user turn.
- The refresh after saving settings does not clear a persistent setup warning
  once its cause is fixed (see Findings).

Things that are parameters rather than code:

- The Gemini service is a function `reply: Request -> CallResult`. It either
  raises an exception with a message, or it returns a response or a falsy
  object.
- `GOOGLE_AI_AVAILABLE` is the flag `lib`.
- Whether `QColor(text)` raises is the function `colorRaises: string -> bool`.

## Model

| member | source | states |
|---|---|---|
| `Text.ContainsIff` | aiadvanced.py:128-136 | The recursive `sub in s` test holds exactly when some window of `s` equals `sub`. |
| `Text.MissingFirstCharRulesOut` | aiadvanced.py:128-136 | A needle whose first character never occurs in the text is not contained in it. |
| `Text.ContainsInfix` | aiadvanced.py:481 | A text contains every string it is built around, so a message that embeds a marker carries that marker. |
| `Text.Lower` | aiadvanced.py:130-134 | Lower-casing keeps the length and maps each character to itself, except that ASCII capitals become the matching small letters. |
| `Text.Strip` | aiadvanced.py:439 | `strip()` gives the infix left after cutting only whitespace from both ends. The result neither starts nor ends with whitespace, and it is empty exactly when the input is all whitespace. |
| `Text.StripNoSpace` | aiadvanced.py:439 | Input without whitespace passes through `strip()` unchanged. |
| `Text.StripIdempotent` | aiadvanced.py:439 | Stripping an already stripped message changes nothing. |
| `Configuration.Load` | aiadvanced.py:33-52 | A missing or undecodable file gives exactly the defaults. Otherwise every key of the file overrides its default, default keys the file lacks keep their default, and extra keys are kept. The accent colour falls back to the default only when the colour constructor raises on the merged value. |
| `Configuration.LoadKeepsDefaultKeys` | aiadvanced.py:40-41 | Every default key is present after loading, whatever the file holds. |
| `Configuration.CompleteFileTakenVerbatim` | aiadvanced.py:40-48 | A file that sets every default key and a valid colour is the configuration itself. |
| `Configuration.ApiKey` | aiadvanced.py:441 | `config.get("api_key")` is the stored key, and an absent key reads as the empty (falsy) key. |
| `Configuration.LoadedApiKey` | aiadvanced.py:33-52 | After loading, the key is the file's key if the file has one, and the empty key otherwise. |
| `ApiErrors.ClassifyIsFirstMatch` | aiadvanced.py:128-137 | The classifier returns the first rule, in the order invalid key, quota, deadline, permission, model not found, whose test matches. It falls through exactly when no rule matches. |
| `ApiErrors.FirstMatchUnique` | aiadvanced.py:128-137 | At most one rule can be the first match, so the classification is unambiguous. |
| `ApiErrors.ApiErrorMessage` | aiadvanced.py:124-138 | Every message starts with "API Error: ". Unmatched exceptions give "API Error: " followed by the exception text. Matched ones give the fixed message of their rule. |
| `ApiErrors.InvalidKeyBeatsQuota` | aiadvanced.py:128-131 | Any text that matches both the invalid-key rule and the quota rule is classified as an invalid key and gets the invalid-key message. |
| `ApiErrors.QuotaIgnoresCase` | aiadvanced.py:130 | "quota" written in any casing anywhere in the text makes the quota rule match, so the text is a quota error unless the invalid-key rule matched first. |
| `ApiErrors.NotFoundNeedsModelsPath` | aiadvanced.py:136-138 | Example: the text "NotFound" alone, without "models/", falls through to the generic message "API Error: NotFound". |
| `Worker.PlanRequest` | aiadvanced.py:90-96 | The call is single-turn exactly when the history is empty. A multi-turn call carries the history unchanged, and both kinds send the job's message. |
| `Worker.JoinEmptyIff` | aiadvanced.py:108-114 | The joined text of the parts is empty exactly when every part that has text has empty text. |
| `Worker.JoinAppend` | aiadvanced.py:108 | The join concatenates the parts' texts in order and skips parts without text. |
| `Worker.Interpret` | aiadvanced.py:98-122 | A readable direct text is the success value, even when it is empty. Otherwise non-empty parts give the join, or the "contained no text" error when the join is empty. Otherwise a block reason gives "Request blocked: ...". Otherwise, and for a falsy response, the result is the "empty or unexpected response" error. |
| `Worker.Run` | aiadvanced.py:78-138 | A missing library is reported before a missing key. Once both checks pass, an exception from the call becomes the classified message, and a returned response, or a falsy one, is read by `Interpret`. A success happens only when both checks pass and the call returns a response. |
| `Worker.PreconditionsPrecedeCall` | aiadvanced.py:80-85 | When a precondition fails, the outcome is an error that does not depend on the service at all. |
| `Worker.SuccessCarriesResponseText` | aiadvanced.py:98-111 | A success carries either the direct text or the non-empty join of the parts. An empty success can only come from a direct text. |
| `Worker.DirectTextWins` | aiadvanced.py:100-103 | A direct text takes precedence over candidate parts and over a block reason. |
| `Worker.EmptyPartsAreNotBlocked` | aiadvanced.py:105-117 | Parts that carry only empty texts give "contained no text", even when a block reason is set. |
| `StatusLabel.Show` | aiadvanced.py:475-482 | The label shows the message with its error flag. A timer is scheduled exactly when the message is not persistent, that is, when the duration is non-zero and the text carries neither marker. |
| `StatusLabel.HideSpecific` | aiadvanced.py:484-489 | The call hides the label exactly when it is visible, shows exactly that message, and is not an error carrying a persistent marker; otherwise the label is unchanged. |
| `StatusLabel.Expire` | aiadvanced.py:482-489 | A timer that fires for `msg` consumes its timer. It hides the label only if the label is visible, shows exactly `msg`, and is not a persistent error. Without a pending timer nothing happens. |
| `StatusLabel.Hide` | aiadvanced.py:491-496 | The label stays visible only if it is a visible error carrying a persistent marker. |
| `StatusLabel.AfterWorkerFinished` | aiadvanced.py:472-473 | An error label is left as it is. Any other label is hidden. |
| `StatusLabel.RefreshForConfig` | aiadvanced.py:513-517 | A missing library gives the library warning and a missing key gives the key warning, both with duration 0. Otherwise the label goes through `hide_status_message`. |
| `StatusLabel.WarningsAreSticky` | aiadvanced.py:515-516 | Both setup warnings are errors that carry a persistent marker. |
| `StatusLabel.RefreshForConfigIntended` | aiadvanced.py:513-517 | Corrected refresh: after it, the label shows a persistent warning exactly when the library or the key is missing. |
| `StatusLabel.StaleKeyWarningSurvivesRefresh` | aiadvanced.py:513-517 | As written, the "API Key not set..." warning is still shown after the refresh that follows configuring a key. |
| `StatusLabel.TimersStayClean` | aiadvanced.py:475-496 | No label operation ever schedules a timer for a text that carries a persistent marker. |
| `StatusLabel.MarkedMessageOutlivesTimers` | aiadvanced.py:481-489 | A message that carries a persistent marker is never taken down by a timer, error or not. |
| `StatusLabel.StickyLabelSurvivesHides` | aiadvanced.py:484-496 | A persistent error survives timers, `hide_status_message`, the end of a request, and a refresh with a key configured. |
| `StatusLabel.ShownMessageExpires` | aiadvanced.py:481-489 | A transient message is taken down by its own timer. |
| `StatusLabel.SupersededTimerIsHarmless` | aiadvanced.py:482-486 | The timer of an earlier message does not hide a later message with a different text. |
| `ChatWindow.Init` | aiadvanced.py:377-379 | The window starts with an empty history, input enabled, no request, the loaded configuration and the given library flag. The label is refreshed from the configuration: it is visible exactly when the library or the key is missing, and then shows a persistent warning. |
| `ChatWindow.SendMessage` | aiadvanced.py:437-453 | Disabled or blank input changes nothing at all. A missing key shows the "Error: API Key not set..." error with the 5000 ms duration. It carries the key marker, so it is persistent and gets no timer. With a key but no library, "Error: Google AI library not installed." is shown as an error with the 5000 ms duration. It carries no persistent marker, so unlike the key error it gets a timer and expires. In both cases the history, the phase and the input stay unchanged. Otherwise exactly one user turn with the stripped text is appended, input is disabled, "AI is thinking..." is shown as a transient message with its timer, and the worker gets the key, the text and the history ending with that turn. The configuration and the library flag are never changed. |
| `ChatWindow.HandleResponse` | aiadvanced.py:455-459 | Exactly one model turn with the reply is appended, and the label goes through `hide_status_message`. The input state, the configuration and the library flag are kept. |
| `ChatWindow.HandleError` | aiadvanced.py:461-466 | The last turn is removed only when it is a user turn. An empty history is left alone. The error is shown as an error message with the 5000 ms duration, so it gets its expiry timer unless it carries a persistent marker. The input state, the configuration and the library flag are kept. |
| `ChatWindow.OnWorkerFinished` | aiadvanced.py:468-473 | Input is enabled again and the history is kept. The label goes through the end-of-request rule: an error label is left as it is, and any other label is hidden with its text and pending timers kept. The configuration and the library flag are kept. |
| `ChatWindow.OnSettingsChanged` | aiadvanced.py:504-511 | The configuration is reloaded, the label is refreshed for it, and the history is emptied. A missing library or key leaves a visible persistent warning. The library flag, the request phase and the input state are not touched. |
| `ChatWindow.Step` | aiadvanced.py:450-452 | A send goes through `send_message` at any time, and a settings save goes through `on_settings_changed`. The worker's response and error reach their handlers only while it runs, and `finished` only after its signal; at other times those events change nothing. A timer firing changes only the label. Only a settings save changes the configuration, and no event changes the library flag. |
| `ChatWindow.InitSatisfiesInv` | aiadvanced.py:377-379 | The freshly built window satisfies the window invariant. |
| `ChatWindow.StepKeepsInv` | aiadvanced.py:437-511 | Every event except a settings reset during a request keeps the invariant. The invariant says: input is enabled exactly when idle; the history is settled when no request runs; and a running worker holds the window's history, which ends with its prompt. |
| `ChatWindow.RunKeepsInv` | aiadvanced.py:437-511 | Any sequence of events with no settings reset during a request keeps the invariant. |
| `ChatWindow.IdleHistoryAlternates` | aiadvanced.py:447-473 | From a fresh window, whenever no request runs, the history alternates user, model, ..., starting with the user and ending with the model. |
| `ChatWindow.WorkerRequestRepeatsPrompt` | aiadvanced.py:448-449 | A running worker always makes a multi-turn call whose history already ends with the prompt. |
| `ChatWindow.CompletionSettles` | aiadvanced.py:455-473 | A running request followed by the worker's signal and `finished` ends idle. The history has gained exactly the reply, or has lost exactly the prompt and shows the error. |
| `ChatWindow.ReplyThenFinished` | aiadvanced.py:455-473 | A reply followed by `finished` leaves the window idle, with input enabled and the invariant kept, and adds exactly the reply to the history. |
| `ChatWindow.ErrorThenFinished` | aiadvanced.py:461-473 | An error followed by `finished` leaves the window idle, with input enabled and the invariant kept. The prompt is withdrawn from the history and the error stays on the label. |
| `ChatWindow.SendThenFailRestoresHistory` | aiadvanced.py:444-466 | A send followed by an error leaves the history exactly as it was. |
| `ChatWindow.SendThenRespondAppendsExchange` | aiadvanced.py:448-458 | An accepted send followed by a reply adds exactly the user turn and the model turn. |
| `ChatWindow.ErrorOnEmptyHistory` | aiadvanced.py:465-466 | An error on an empty history changes no history. |
| `ChatWindow.SendWithoutKey` | aiadvanced.py:439-442 | With an empty key, sending "hello" keeps the history empty, starts no request, and shows a persistent error. |
| `ChatWindow.LibraryErrorExpires` | aiadvanced.py:443-482 | With a key but no library, `send_message` shows "Error: Google AI library not installed." as a visible error. The text carries neither persistent marker, so a timer is pending for it, and when that timer fires the message is hidden. |
| `ChatWindow.ResetInFlightBreaksAlternation` | aiadvanced.py:504-511 | A settings reset while a request runs lets the reply land in an empty history, which leaves the idle window with a lone model turn. |

## Left out

- Qt widgets, layouts, stylesheets, scrolling, message bubbles (`add_message_to_chat`, `clear_chat_display`) and `adjust_text_edit_height`: presentation only, and the height uses floating-point document sizes.
- Palette derivation in both `apply_styles` methods: floating-point HSL arithmetic and cosmetic constants.
- `SettingsDialog` and `save_config`: file writing and dialog widgets. A saved change reaches the model as the `SettingsChanged` event, carrying what the file then holds.
- File I/O and JSON decoding: `load_config` takes the three outcomes (absent, undecodable, decoded) as input. Errors other than `JSONDecodeError` propagate in the source and are not modelled.
- Configuration: only string values are modelled. A decoded file that is not a JSON object, and non-string values, are not modelled.
- QThread and signal delivery: the worker's signal and `finished` are ordered events on one thread, and an in-flight request cannot be cancelled.
- The `google.generativeai` client (`genai.configure`, `GenerativeModel('gemini-1.5-flash')`, `start_chat`): the call is the `reply` parameter. Exceptions raised while reading the response's attributes, other than the `ValueError` of `response.text`, are not modelled.
- `GeminiWorker.__init__` turns a non-list history into `[]`. The window always passes a list, so the model's job always holds a sequence.
- `Text.Lower` models `str.lower()` only for ASCII letters. Python lowers only two non-ASCII characters to text with an ASCII letter: KELVIN SIGN becomes "k", and U+0130 becomes "i" followed by a combining dot. Neither "quota" nor "permission denied" contains a "k". In both, an "i" is never the last character and is never followed by a combining dot. So both case-insensitive rules decide the same way under ASCII lowering as under Python's.
- Real timers and their 5000 ms duration: a timer firing is the explicit `TimerFired`/`Expire` event. It may come at any point after its message was shown.
- Exception types: only the message text of an exception is used, as in the classifier.
- Focus handling and clearing the input line: these have no effect on the modelled state.

## Findings

| source | as written | input that shows it | evidently intended | confidence | as-written member | corrected member |
|---|---|---|---|---|---|---|
| aiadvanced.py:513-517 | Once the library and a key are both present, the refresh calls `hide_status_message`. That function refuses to hide an error that carries "API Key not set", so the setup warning it should clear stays on screen. | Start with an empty key, so "API Key not set..." is shown. Then save a non-empty key in Settings. | The warning disappears once the condition it reports has been resolved. | medium (not executed) | `StatusLabel.StaleKeyWarningSurvivesRefresh` | `StatusLabel.RefreshForConfigIntended` |

`ChatWindow` uses the as-written refresh, because the window model follows the
source. The corrected refresh is a separate function, and its contract states
the intended property.
