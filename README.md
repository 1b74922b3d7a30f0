# Lead-intake questionnaire bot — a Dafny model

The bot asks each chat a fixed list of seven project-qualification questions.
The first six are answered with inline buttons and the last (the user's
contact) with free text. It keeps each chat's progress in a process-wide
session map keyed by chat id. When the last answer arrives it thanks the user,
saves the answers as a lead record, mails the record to an operator if the
save succeeded (and apologises to the user otherwise), and drops the session.

The model has three modules:

- `Catalog` (catalog.dfy) holds the question list with its prompts, options and
  field keys, and the inline-keyboard construction.
- `Flow` (flow.dfy) holds the pure specification. A `State` is the session map
  plus a log of emitted effects (`SendMessage`, `SaveLead`, `Notify`). There is
  one function per handler (`Start`, `Callback`, `Text`, `Finalize`), plus
  `Step`/`Run` over a sequence of updates, and the lemmas.
- `Handlers` (handlers.dfy) holds class `Bot`. Its fields are the session map
  and the effect log, and its methods update them in place the way the
  handlers do. Each method is proved to have exactly the effect of the
  matching `Flow` function.

Sending a message, saving and mailing are modelled as appended log events.
The outcome of the save is a `saveOk` parameter of the two answer handlers.

Two behaviours of the code a reader might not expect; the model follows the code:

- The button handler does not check that the current question offers
  options. A button press at the last question is stored as the user's
  contact and finalises the questionnaire, just as a text message would
  (`Flow.Callback`, third ensures).
- The pressed value is stored verbatim. Nothing checks that it is one of the
  offered options.

## Model

| member | source | states |
|---|---|---|
| `Catalog.CatalogShape` | bot.js:30-66 | the catalog has seven questions; their field keys are pairwise distinct; a question's option list is empty exactly at the last index; the last question's key is `userContact` |
| `Catalog.AllKeysAreSchema` | bot.js:17-66 | the catalog's field keys are exactly the seven fields of the lead schema |
| `Catalog.Buttons` | bot.js:84-87 | one button per option, in order, with label and callback data both equal to the option |
| `Catalog.PressableButtons` | bot.js:84-87 | the callback data of the built keyboard, read back in order, are exactly the options (round trip) |
| `Flow.Prompt` | bot.js:79-103 | the prompt for a stage is sent to the chat with that question's text; it carries inline buttons if and only if the question has options, one button per option with text and data equal to it |
| `Flow.Start` | bot.js:71-76 | `/start` gives the chat a session at stage 0 with no answers, discarding earlier ones; every other chat's session is unchanged; the first question is asked |
| `Flow.Finalize` | bot.js:121-143 | the session is removed whatever the save outcome, and the finalisation effects for its answers are appended |
| `Flow.OutcomeEffects` | bot.js:123-143 | finalisation sends the thank-you first and saves the record exactly once; it mails the record if and only if the save succeeded, and sends the apology if and only if it failed |
| `Flow.Callback` | bot.js:106-146 | a press without a session changes nothing; below the last stage the value goes under the current question's key, the stage rises by exactly one, the next question is asked and no other chat changes; at the last stage the value goes under `userContact` and the session is finalised and removed |
| `Flow.Text` | bot.js:149-177 | text without a session, or at any stage but the last, changes nothing; at the last stage it is stored under `userContact`, the session is finalised and removed, and other chats are untouched |
| `Flow.Step` | bot.js:71-177 | any update changes only its own chat's session and only appends effects |
| `Flow.StepPreservesInv` | bot.js:111-119 | every update keeps each session's stage within the catalog and its answers on exactly the keys of the questions already passed |
| `Flow.RunPreservesInv` | bot.js:74-119 | the same invariant holds after any sequence of updates |
| `Flow.AnswersOnCatalogFields` | bot.js:111-115 | while the invariant holds, a session's answers lie on catalog keys only and its stage is at most the last index |
| `Flow.ContactCompletes` | bot.js:153-160 | the answers held at the last stage plus the contact make a record with exactly the schema's fields |
| `Flow.StepSavesComplete` | bot.js:106-177 | one update saves at most one record, and any record it saves has exactly the schema's fields |
| `Flow.RunSavesComplete` | bot.js:128-163 | over any run from a consistent state, every record ever saved has exactly the schema's fields |
| `Flow.FillAt` | bot.js:115-119 | the record built from answers given in catalog order has the keys of the questions answered, each holding the value given at its question |
| `Flow.AnswerSelections` | bot.js:110-120 | from stage k, one press per question up to the last leads to the last stage with those answers; no other chat changes, and nothing is saved or mailed |
| `Flow.CompleteFlow` | bot.js:71-177 | `/start`, six presses and one text remove the chat's session and leave other chats as they were; they save exactly one record, the one built from the given answers, and mail it if and only if the save succeeded |
| `Flow.CompleteRecord` | bot.js:17-66 | that record has exactly the schema's fields, each holding the value given at its question |
| `Handlers.Bot.constructor` | bot.js:69 | the session map starts empty and no effects have happened |
| `Handlers.Bot.AskQuestion` | bot.js:79-103 | appends the prompt for the chat's current stage to the effect log |
| `Handlers.Bot.Start` | bot.js:71-76 | the in-place `/start` handler has exactly the effect of `Flow.Start` and keeps the invariant |
| `Handlers.Bot.Finalize` | bot.js:121-143 | the in-place finalisation has exactly the effect of `Flow.Finalize` |
| `Handlers.Bot.OnCallback` | bot.js:106-146 | the in-place button handler has exactly the effect of `Flow.Callback` and keeps the invariant |
| `Handlers.Bot.OnText` | bot.js:149-177 | the in-place text handler has exactly the effect of `Flow.Text` and keeps the invariant |

## Left out

- Telegram transport (`bot.launch`, the `ctx` objects, the `.then`/`.catch` logging on sends): each send is one appended `SendMessage` event. A send that fails is not modelled.
- The MongoDB connection, schema and model (bot.js:10-27): a save is a `SaveLead` event whose outcome is the `saveOk` parameter. The schema's dropping of the `stage` field is the storage library's behaviour; the record is the session's answers.
- Mail sending (bot.js:180-212): transport set-up, credentials and the mail body template are external I/O. A successful save yields one `Notify` event carrying the record. A mail failure is only logged by the source and is not modelled.
- Interleaving across the `await` of the save (bot.js:131, bot.js:163), which comes before the session is deleted (bot.js:143, bot.js:175): finalisation is one atomic step. Two effects of that gap are not captured:
  - A `/start` that arrives while a save is pending gets a fresh session, which the pending handler then deletes.
  - A second press or text at the last stage that arrives while the first save is pending finalises again and saves a second record. The "exactly one save" promises of `Flow.CompleteFlow` and `Flow.StepSavesComplete` hold only because finalisation is atomic.
- Console logging and `dotenv` configuration.
- Sessions are values in a map that the handlers reassign, not objects shared by reference. The source never aliases a session, so nothing observable is lost.
- A button press at a stage past the catalog would make the source throw before writing anything. `Flow.Callback` leaves the state unchanged there, as its last ensures states. `Flow.StepPreservesInv` proves that such a stage cannot occur.
