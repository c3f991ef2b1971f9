# Brainhealer_bot failover core in Dafny

This project models the model-failover engine of the Brainhealer Telegram bot
(`app.py`) and proves properties of it. The engine has these parts:

- **Catalogue** (`catalog.dfy`). The free-model priority list is built once at
  start-up from the OpenRouter model listing. The auto-router
  `openrouter/free` always comes first, and a fixed three-entry list is used
  when the listing cannot be used.
- **Cooldown tracker** (`cooldown.dfy`, class `Cooldown.Tracker`). This is the
  per-model map of `(fails, skip_until)` that `_mark_model_failed` and
  `_is_model_available` update in place. The threshold is 2 and the cooldown
  is 60 seconds, the source's defaults.
- **Dispatcher** (`dispatch.dfy`). This is `_openrouter_chat_sync`: a loop over
  the priority list that skips cooling models and classifies each reply as
  accept, record a failure, or abort. It is specified by the function
  `RunFrom`, and the method `Dispatcher.Chat` is proved equal to it.
- **Crisis check** (`crisis.dfy`). The keyword search of `is_crisis` over the
  ASCII-lowered text.
- **Stress rater** (`stress.dfy`). The digit parsing of `get_stress_level`.
- **Session store** (`session.dfy`, class `Session.SessionStore`). This covers
  `chat_sessions`, `_trim_history`, `clear`, and the decision skeleton of
  `handle_message`. That skeleton is specified by the function
  `Session.Process`, and the method `HandleMessage` is proved equal to it.
- **Text** (`text.dfy`). The ASCII subset of `strip`, `lower`, `isdigit` and
  substring search that the other modules use.

Inputs and injected values:

- Time is a natural-number clock reading passed in by the caller.
- Each position of the priority list comes with a `Probe`, which holds three
  things:
  - the clock reading at its availability check;
  - the reply the model would give if posted to (`Ok200(content)`,
    `Status(code)` or `ConnError`);
  - the clock reading at which a failure would be recorded.
- The API key's presence is a boolean parameter.

Where the code does not do what its own comments, constants and log
messages suggest, the model follows the code:

- **A run taken alone never cools a model.** `_is_model_available` resets
  `fails` whenever the clock has reached `skip_until`. That includes the
  never-cooled value 0 (app.py:125-127). Every attempt in a run is preceded
  by such a check, so while runs are taken one at a time a model's count
  never gets past 1, and with the threshold at 2 no model enters cooldown.
  The threshold `MODEL_FAILURE_THRESHOLD`, the assignment of `skip_until`
  and the "cooled down" log message at app.py:117-119 suggest that repeated
  failures cool a model. For runs taken one after the other, that branch
  is never reached.
  - `Dispatcher.RunKeepsNeverCooled` proves that one run leaves a tracker
    with no cooling entry without one.
  - `Dispatcher.RateLimitedRerun` proves that rerunning the rate-limit
    scenario after the first run has finished leaves the same state.
  - The cooldown window itself is proved about a single failure in
    `Cooldown.CooldownWindow`.
  - The source does start two runs at once for every message: the rating
    call and the reply call (app.py:273-276). When both check the same model
    before either failure is recorded, the model is reset once and fails
    twice, which reaches the threshold and cools it for 60 seconds.
    `Cooldown.InterleavedFailuresCool` proves this on the tracker
    operations. The message model in `Session` takes the two runs one after
    the other, so it does not show this case (see "## Left out").
- **Duplicate auto-router entries survive.** The comment "Always put the
  OpenRouter auto-router first" and the remove-then-insert at app.py:64-69
  suggest a single copy at the front. The code removes only its first occurrence from the
  free ids (`list.remove`), so a listing that names it twice keeps a second
  copy (`Catalog.DuplicateAutoRouterSurvives`).
  `Catalog.AutoRouterExactlyOnce` holds only for listings that name it at
  most once. The catalogue does not remove other repeated ids either, so the
  priority list may name a model more than once.
- **More fallback cases.** The fallback list is also used when:
  - the listing body is not JSON;
  - a free entry has no `id`, because `m["id"]` raises inside the `try`.

  A `data` value that iterates as empty, such as an empty JSON object or
  an empty string, gives the catalogue made of the auto-router alone; the
  model reads it as an empty listing.
- **Success resets only tracked models.** On success, a tracked model's entry
  is reset to (0, 0), and an untracked model gets no entry
  (app.py:162-163).
- **The user turn is stored before the model calls.** The user's turn is
  appended and trimmed before the rating and reply calls (app.py:266-269).
  A failed reply run then drops the whole session (app.py:290).
- **The dispatcher returns the reply unstripped.** It returns the accepted
  content as it is, and `handle_message` strips it (app.py:278).

## Model

| member | source | states |
|---|---|---|
| Catalog.IsFree | app.py:59-61 | No contract of its own: the price test, both `pricing` strings equal to "0". What it selects is stated by `Catalog.FreeIds`. |
| Catalog.FreeIds | app.py:58-62 | The ids collected are exactly those of entries whose prompt and completion prices are both the string "0". The listing is unusable exactly when some free entry lacks an id. |
| Catalog.FreeIdsConcat | app.py:58-62 | Filtering a listing split in two is filtering each part and concatenating the results, so ids keep the listing order; a free entry without an id in either part makes the whole listing unusable. |
| Catalog.FreeIdsCount | app.py:58-62 | Each collected id occurs exactly as often as there are free entries carrying it, so nothing is merged or dropped. |
| Catalog.FreeIdsLast | app.py:58-62 | Proof helper: filtering a non-empty listing is filtering all but its last entry and then scanning that entry. |
| Catalog.JoinScan | app.py:58-62 | Proof helper: scanning one more entry commutes with joining the ids of an earlier stretch. |
| Catalog.FreeIdsExtend | app.py:58-62 | Proof helper for the loop: scanning one more entry of the listing extends the ids collected so far by that entry's id when it is free. |
| Catalog.FreeIdsNone | app.py:58-62 | Proof helper for the loop: a free entry without an id in a prefix makes the whole listing unusable. |
| Catalog.RemoveFirst | app.py:68 | `list.remove` leaves a sequence without the value untouched and shortens one containing it by exactly one. |
| Catalog.RemoveFirstMultiset | app.py:68 | Removing the first occurrence takes exactly one copy of the value out of the multiset of elements, or none if it is absent. |
| Catalog.RemoveFirstAt | app.py:68 | `list.remove` cuts the sequence at the first occurrence of the value and keeps everything before and after it in order. |
| Catalog.FetchFreeModels | app.py:47-79 | The filter-then-move-to-front loop returns exactly `CatalogueOf(reply)`. On a non-200 status, a non-JSON body, a free entry without an id or an unreachable endpoint, that is the fallback list. |
| Catalog.CatalogueOf | app.py:52-79 | No contract of its own: the catalogue a listing reply determines. What it means is stated by `Catalog.CatalogueShape`, `Catalog.AutoRouterExactlyOnce` and `Catalog.DuplicateAutoRouterSurvives`. |
| Catalog.CatalogueShape | app.py:52-79 | The catalogue is never empty and starts with the auto-router. On failure it is exactly the three-entry fallback. On success the rest is the free ids in listing order with the auto-router's first occurrence removed, and the catalogue holds the free ids plus the auto-router as a multiset. |
| Catalog.AutoRouterExactlyOnce | app.py:64-69 | When the listing names the auto-router at most once, the catalogue names it exactly once, at index 0 and at no later index. |
| Catalog.DuplicateAutoRouterSurvives | app.py:64-69 | A listing that names the auto-router twice as a free model yields a catalogue with the auto-router twice, because only the first occurrence is removed. |
| Cooldown.StateOf | app.py:115 | No contract of its own: the entry of a model, or the (0, 0) entry `setdefault` creates. Used in the contract of `Cooldown.AfterFailure`. |
| Cooldown.Cooling | app.py:121-129 | No contract of its own: the model is tracked and its `skip_until` is still ahead. What the check does with it is stated by `Cooldown.AfterCheck` and `Cooldown.Tracker.CheckAvailable`. |
| Cooldown.IsAvailable | app.py:121-129 | No contract of its own: the answer of `_is_model_available`. `Cooldown.Tracker.CheckAvailable` is proved to return it. |
| Cooldown.AfterCheck | app.py:121-129 | `_is_model_available` resets a tracked entry to (0, 0) once the clock has reached `skip_until` (including the never-cooled 0). Otherwise it leaves the entry alone, and it never creates an entry. |
| Cooldown.AfterFailure | app.py:114-118 | `_mark_model_failed` creates the entry if absent and adds exactly one failure. It sets `skip_until` to now + 60 exactly when the new count reaches the threshold, and keeps it otherwise. |
| Cooldown.AfterSuccess | app.py:162-163 | A successful reply resets a tracked model's entry to (0, 0) and creates none for an untracked one. |
| Cooldown.WritesOnlyModel | app.py:114-129 | The check, a failure and a success each leave every other model's entry as it was, and create no other entry. |
| Cooldown.CooldownWindow | app.py:117-118 | A failure that reaches the threshold excludes the model for exactly 60 seconds. Every earlier check answers false and changes nothing. A check at or after the end answers true and resets the entry. |
| Cooldown.NeverCooledAllAvailable | app.py:121-128 | With no entry in cooldown, every model is available at every time. |
| Cooldown.CheckThenFailureStaysCool | app.py:114-128 | A check followed directly by a failure, with no other check in between, leaves a never-cooled entry at exactly one failure and no cooldown, because the check resets the count first. |
| Cooldown.InterleavedFailuresCool | app.py:116-129 | Two checks of one available model made before either failure is recorded, as when the rating and reply runs post to it at once, reset it only once: the two failures then reach the threshold, and the model is cooling from the second failure until 60 seconds after it. |
| Cooldown.Tracker.constructor | app.py:110 | The tracker starts empty. |
| Cooldown.Tracker.MarkFailed | app.py:114-118 | The in-place update leaves exactly `AfterFailure` of the old map. |
| Cooldown.Tracker.CheckAvailable | app.py:121-129 | Answers whether the model is not cooling, and leaves exactly `AfterCheck` of the old map. |
| Cooldown.Tracker.RecordSuccess | app.py:162-163 | The in-place reset leaves exactly `AfterSuccess` of the old map. |
| Dispatcher.Classify | app.py:158-188 | A reply is accepted exactly when it is a 200 with non-blank content, and the content is returned unchanged. It aborts exactly on 401/403. Everything else is a recorded failure: the skip codes, other codes, a blank or missing 200 content, and exceptions. |
| Dispatcher.StepAt | app.py:137-188 | No contract of its own: one iteration of the loop. What it does is stated by `Dispatcher.StepOverTransient`, `Dispatcher.DecidesAt` and `Dispatcher.StepKeepsNeverCooled`. |
| Dispatcher.RunFrom | app.py:136-190 | No contract of its own: the loop from one position on. What it means is stated by `Dispatcher.RunOutcomeSound`, `Dispatcher.StopsAtFirstDecisive`, `Dispatcher.DecidesAfterRun`, `Dispatcher.ExhaustsAfterTransients`, `Dispatcher.ExhaustsAlongRun` and `Dispatcher.RunKeepsNeverCooled`. |
| Dispatcher.Dispatch | app.py:132-190 | No contract of its own: a missing key fails at once, and otherwise the run from the first model with `tried` at 0. `Dispatcher.Chat` is proved equal to it. |
| Dispatcher.Chat | app.py:132-190 | The loop returns the outcome and leaves the tracker state that `Dispatch` gives for the old state. A missing key fails before any model is looked at. |
| Dispatcher.RunOutcomeSound | app.py:136-190 | A run never reports a missing key. A success carries the non-blank content of some later model's 200 reply. An abort comes from some later model's 401/403. The exhausted count grows by at most one per model. |
| Dispatcher.StepKeepsNeverCooled | app.py:137-188 | One loop iteration, taken alone, keeps a tracker with no cooling entry free of cooling entries. |
| Dispatcher.RunKeepsNeverCooled | app.py:136-190 | A whole run, taken alone, keeps a tracker with no cooling entry free of cooling entries, so while runs are taken one at a time, starting from the empty tracker, no model is put in cooldown. Interleaved runs are not covered (see `Cooldown.InterleavedFailuresCool`). |
| Dispatcher.RunReadsOnlyLaterProbes | app.py:137-141 | A run from a position depends only on the replies of the models from that position on. |
| Dispatcher.CoolingModelNotPosted | app.py:138-139 | A model in cooldown is never posted to: whatever it would have answered, the run comes out the same. |
| Dispatcher.CountAvailableFrame | app.py:138-141 | How many models pass the check depends only on which of them are cooling. |
| Dispatcher.PassOver | app.py:138-141 | A model that is skipped keeps its entry. One that is posted to and fails is left with exactly one failure and no cooldown. |
| Dispatcher.PassOverFrame | app.py:137-188 | Passing over one model leaves every other model's entry as it was. |
| Dispatcher.StepOverTransient | app.py:137-188 | A skipped or failing model moves the run on by one, adding one to `tried` exactly when the model was posted to. |
| Dispatcher.SettleShape | app.py:137-188 | Over distinct models, a stretch of skipped or failing models leaves each posted-to model with exactly one failure. It keeps the entries of the skipped ones and leaves every other entry alone. |
| Dispatcher.CarryTransients | app.py:137-188 | Over distinct models, failing one model does not change whether any later model is cooling. |
| Dispatcher.TransientsAlongRun | app.py:136-141 | Over distinct models, being skipped or failing in the starting state means being skipped or failing along the run. The run posts to exactly the models that are available in the starting state. |
| Dispatcher.PastTransients | app.py:136-188 | After a stretch of skipped or failing models, the run continues from the settled state, with `tried` grown by the number of models posted to. |
| Dispatcher.ExhaustsAfterTransients | app.py:136-190 | Over a priority list without repeated ids, when every model is skipped or fails, the run is exhausted and `tried` is the number of models that passed the check. Each one posted to holds exactly one failure, and nothing else changes. |
| Dispatcher.ExhaustsAlongRun | app.py:136-190 | For any priority list, repeated ids included: when each model is skipped or fails in the state the run has reached, the run is exhausted with `tried` grown by the number of models posted to, and leaves the settled state. |
| Dispatcher.Decide | app.py:161-176 | The decisive model is reset to (0, 0) if it was tracked and available, and gets no new entry. |
| Dispatcher.DecideFrame | app.py:161-176 | The decisive model's update leaves every other model's entry as it was. |
| Dispatcher.KeepFailedOnce | app.py:137-176 | Proof helper: a write to one model outside a stretch keeps the entries of every model in the stretch. |
| Dispatcher.KeepUntouched | app.py:137-176 | Proof helper: a write only to the model at the next position extends the untouched entries to that position. |
| Dispatcher.FirstAt | app.py:137-176 | Proof helper: over distinct models, the model at a position does not occur earlier in the list. |
| Dispatcher.DecidesAt | app.py:158-176 | An available model whose reply is not a recorded failure ends the run at once: with its content on a non-blank 200, with the authentication error on 401/403. |
| Dispatcher.StopsAtFirstDecisive | app.py:137-176 | Over a priority list without repeated ids, the first available model that does not fail decides the outcome: its content or the authentication error. Every earlier model posted to holds exactly one failure. The decisive model holds no failure and gets no new entry. No later model's entry is touched. |
| Dispatcher.DecidesAfterRun | app.py:137-176 | For any priority list, repeated ids included: after a stretch of models that are skipped or fail, the first model that passes its check in the state reached and does not fail decides the outcome, and only its own entry is written after the stretch. |
| Dispatcher.RateLimitedThenReply | app.py:137-172 | Three models, the first two answering 429 and the third answering with usable text: the run returns that text and leaves exactly one failure on each of the first two. |
| Dispatcher.FailAgainIsNoop | app.py:121-128 | Failing again a model that holds one failure and is not cooling leaves the tracker as it was. |
| Dispatcher.RateLimitedRerun | app.py:121-172 | Rerunning the same scenario after the first run has finished, from the state it left, gives the same reply and the same state, so while runs are taken one at a time no model reaches cooldown. |
| Crisis.AnyOccurs | app.py:107 | `any(kw in s ...)` holds exactly when some keyword of the list occurs in the text. |
| Crisis.IsCrisis | app.py:105-107 | The check holds exactly when some keyword occurs in the ASCII-lowered text, with a None text read as empty. |
| Crisis.CrisisIgnoresCase | app.py:106 | Upper- and lower-case spellings of the same text get the same answer. |
| Crisis.KeywordsAreLong | app.py:98-103 | No keyword is shorter than seven characters. |
| Crisis.ShortTextIsNotCrisis | app.py:105-107 | A text shorter than every keyword, and so a None text, is never a crisis. |
| Crisis.CrisisSurvivesContext | app.py:107 | A crisis text stays a crisis text whatever is written before and after it. |
| Crisis.KeywordInAnyCaseIsCrisis | app.py:105-107 | A keyword written in any mix of cases, anywhere in a message, makes it a crisis. |
| Text.IsSpace | app.py:161 | No contract of its own: ASCII whitespace as `str.isspace` sees it. Used in the contracts of `Text.StripStart`, `Text.StripEnd` and `Text.BlankIffAllSpace`. |
| Text.IsDigit | app.py:210 | No contract of its own: the ASCII digits. Used in `Stress.ParseLevel`, whose meaning is stated by `Stress.StressLevel`. |
| Text.Strip | app.py:209 | No contract of its own: `rstrip` after `lstrip`. What it means is stated by `Text.StripStart`, `Text.StripEnd`, `Text.StripOfNonBlank` and `Text.StripIdempotent`. |
| Text.IsBlank | app.py:161 | No contract of its own: `not s.strip()`. `Text.BlankIffAllSpace` states that it holds exactly when every character is whitespace. |
| Text.StripStart | app.py:209 | `lstrip` drops exactly a leading run of whitespace and leaves a suffix that does not start with whitespace. |
| Text.StripEnd | app.py:209 | `rstrip` drops exactly a trailing run of whitespace and leaves a prefix that does not end with whitespace. |
| Text.BlankIffAllSpace | app.py:161 | A text is blank after stripping exactly when every character is whitespace. |
| Text.StripOfNonBlank | app.py:278 | Stripping a non-blank text leaves a non-empty text that neither starts nor ends with whitespace. |
| Text.StripStartSkips | app.py:209 | Leading whitespace never survives `lstrip`. |
| Text.StripIdempotent | app.py:278 | Stripping twice is stripping once. |
| Text.LowerChar | app.py:106 | ASCII `lower` maps A-Z to a-z and leaves every other character alone. |
| Text.Lower | app.py:106 | `lower` keeps the length and lowers each character in place. |
| Text.LowerConcat | app.py:106 | Lowering a concatenation is concatenating the lowered parts. |
| Text.Contains | app.py:107 | The substring test holds exactly when the needle occurs at some index. |
| Text.OccursInContext | app.py:107 | An occurrence survives text being put before and after it, shifted by the length of the prefix. |
| Stress.ParseLevel | app.py:210-213 | No contract of its own: the first character read as a digit from 1 to 5, or 1. What it means is stated by `Stress.StressLevel` and `Stress.DigitReplyReadBack`. |
| Stress.StressLevel | app.py:209-216 | The level is always 1 to 5. A failed rating run gives 1. A level other than 1 is the first character of the stripped reply. A first character from 1 to 5 is read back as that digit. |
| Stress.DigitReplyReadBack | app.py:209-213 | A reply made of leading whitespace, a digit from 1 to 5 and anything after it is rated as that digit. |
| Stress.RateStress | app.py:197-216 | The rating call returns the level of the dispatch run's outcome and leaves the tracker state of that run. |
| Session.TrimHistory | app.py:233-235 | A history that fits keeps its length. A longer one is cut to exactly `MAX_MESSAGES` (24) entries. |
| Session.TrimIsSuffix | app.py:233-235 | The trimmed history is the input itself while it fits, and always a suffix of the input. |
| Session.DropDrop | app.py:233-235 | Proof helper: dropping entries from the front twice is dropping their sum. |
| Session.DropAppend | app.py:233-235 | Proof helper: dropping from the front commutes with appending at the back. |
| Session.TrimAbsorbs | app.py:233-235 | Trimming, appending and trimming again is trimming once at the end, so early trims lose nothing a late trim would keep. |
| Session.TrimPair | app.py:266-280 | Storing the user turn and the assistant turn, each followed by a trim, leaves the newest entries of both appended at once. |
| Session.AppendEachKeepsNewest | app.py:233-235 | However many messages arrive, a history trimmed after each one holds exactly the newest `MAX_MESSAGES` of all of them, oldest first. |
| Session.DefaultReplyNotBlank | app.py:278 | The substitute reply is not blank. |
| Session.ReplyText | app.py:278 | The stored reply is never blank: it is the stripped reply when that is non-blank, and the default text otherwise. |
| Session.Opened | app.py:247-248 | No contract of its own: the sessions with the user's entry created empty if absent. `Session.OpenedFrame` states what it changes. |
| Session.Process | app.py:246-291 | No contract of its own: one run of `handle_message`. What it means is stated by `Session.CrisisLeavesHistory`, `Session.ReplyUpdatesHistory`, `Session.ReplyFailureDropsSession` and `Session.ProcessKeepsInvariants`, and `Session.SessionStore.HandleMessage` is proved equal to it. |
| Session.Converse | app.py:266-280 | No contract of its own: the conversation path, with the rating run and then the reply run taken one after the other. `Session.SessionStore.Respond` is proved equal to it. |
| Session.Conclude | app.py:278-291 | No contract of its own: the step after both runs. What it means is stated by `Session.ConcludeReply` and `Session.ConcludeFrame`. |
| Session.OrdinaryMessage | app.py:253-276 | Proof helper that unfolds `Process`: with a key and a non-crisis message, the handler takes the conversation path on the session opened for the user. |
| Session.ConverseConcludes | app.py:266-280 | Proof helper that unfolds `Converse`: the conversation path is the stored user turn, the rating run, then the reply run on the tracker the rating left, then the conclusion. |
| Session.DropOpened | app.py:247-248 | Proof helper: dropping the user's entry after it was opened gives the sessions without that user. |
| Session.ConcludeReply | app.py:278-284 | A usable reply is answered stripped, with the button decided by the rated level. The history is stored with the user and assistant turns appended and trimmed, and the tracker is left as the runs left it. |
| Session.CrisisLeavesHistory | app.py:247-264 | A crisis message gets the helpline answer, creates the session if absent, appends nothing and asks no model. |
| Session.ReplyUpdatesHistory | app.py:266-286 | A successful reply is sent stripped, with the button exactly when the rated level is at least 3, never after a failed rating run. The user's history becomes the newest 24 entries of the old history, the user's message and the reply. |
| Session.ReplyFailureDropsSession | app.py:288-291 | A failed reply run answers with the generic error and drops the user's session. |
| Session.OpenedFrame | app.py:247-248 | Opening a session stores an empty history and touches no other user. |
| Session.ConcludeFrame | app.py:278-290 | Concluding writes or drops only this user's entry, and keeps every history within the retention window. |
| Session.Overwrite | app.py:269-280 | Proof helper: the second write to a user's entry replaces the first. |
| Session.ProcessKeepsInvariants | app.py:246-291 | One message touches only its own user's session, keeps every history within 24 entries, and, with its two runs taken one after the other, keeps a never-cooled tracker never-cooled. |
| Session.SessionStore.constructor | app.py:94 | The store starts with no sessions. |
| Session.SessionStore.Clear | app.py:228-231 | `clear` removes exactly the user's entry, present or not. |
| Session.SessionStore.HandleMessage | app.py:237-291 | The handler's answer, the sessions and the tracker state it leaves are exactly those of `Process` on the old state. |
| Session.SessionStore.Respond | app.py:266-291 | The conversation path updates the sessions and the tracker in place exactly as `Converse` describes. |

## Left out

- The HTTP requests are not modelled: the listing request, the chat-completion posts, `_openrouter_headers`, timeouts and JSON decoding. Each reply is an abstract value, because this is network I/O.
- Listing values of unexpected JSON types are not modelled. The model covers a non-JSON body, a missing `data` key or a `data` that iterates as empty (read as an empty listing), a missing `pricing`, and a missing `id`. Two cases behave differently in the source and are not modelled:
  - an entry or `pricing` value that is not an object, and a `data` that cannot be iterated or iterates over non-objects, raise inside the `try` and give the fallback list;
  - an `id` that is JSON null is appended as None without raising, so the catalogue then holds a None entry.
- The Telegram handlers are not modelled: `start`, the text sent by `clear`, `send_chat_action`, the inline keyboard and polling. The button is a boolean, because this is transport and UI.
- Session.Process: does not model an exception raised by `send_chat_action` or `reply_text`, which the source would also turn into a dropped session, because those are transport calls.
- Concurrency: `asyncio.gather` and `asyncio.to_thread` are not modelled. Session.Converse runs the rating call and then the reply call, one after the other, against the same tracker. What this loses: the two runs of one message really share the tracker at the same time, so a model that both of them check before either records its failure is reset once and then fails twice. That reaches the threshold and cools the model for 60 seconds (`Cooldown.InterleavedFailuresCool`). The never-cooled results (`Dispatcher.RunKeepsNeverCooled`, the third part of `Session.ProcessKeepsInvariants`) hold only for runs taken one at a time.
- Environment and `.env` loading, `print`, logging and the start-up exit checks are not modelled. The threshold (2), the cooldown (60 s) and the history pairs (12) are constants at the source's defaults.
- `temperature`, `max_tokens`, the prompts and the `user` field pass through to the HTTP call and are not modelled.
- Time is a natural-number clock instead of floating-point seconds.
- Unicode is not modelled: `lower`, `strip` and `isdigit` are restricted to ASCII.
- Dispatcher.ExhaustsAfterTransients: stated only for priority lists without repeated ids, which the catalogue does not guarantee. For any list, `Dispatcher.ExhaustsAlongRun` states the outcome and `tried` along the run, without the per-entry failure counts.
- Dispatcher.StopsAtFirstDecisive: stated only for priority lists without repeated ids, which the catalogue does not guarantee. For any list, `Dispatcher.DecidesAfterRun` states the outcome and the decisive model's write after the stretch, without the per-entry failure counts.
- Session.TrimHistory: its own contract states only the length. The suffix property is stated and proved in Session.TrimIsSuffix.
- Catalog.RemoveFirst: its own contract states only the length. What it removes is stated and proved in Catalog.RemoveFirstAt and Catalog.RemoveFirstMultiset.
