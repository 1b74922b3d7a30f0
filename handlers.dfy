/** The bot's process-wide session map and its update handlers, written as the
    step-by-step procedures of bot.js. Each handler is proved to have the
    effect the matching `Flow` function describes, so every property proved
    there holds of the handlers. */
module Handlers {
  import opened Catalog
  import opened Flow

  class Bot {
    /** `userData`: one entry per chat that is in the middle of the questionnaire. */
    var sessions: map<ChatId, Session>
    /** Every message sent, record saved and operator mail sent, in order. */
    var log: seq<Event>

    function Snapshot(): State
      reads this
    {
      State(sessions, log)
    }

    ghost predicate Valid()
      reads this
    {
      Inv(Snapshot())
    }

    constructor ()
      ensures Valid() && sessions == map[] && log == []
    {
      sessions := map[];
      log := [];
    }

    /** `askQuestion`: sends the question at the chat's cursor, with its options
        as inline buttons when it has any. */
    method AskQuestion(chat: ChatId)
      requires chat in sessions && sessions[chat].stage <= Last
      modifies this`log
      ensures log == old(log) + [Prompt(chat, sessions[chat].stage)]
    {
      var question := Questions[sessions[chat].stage];
      if |question.options| > 0 {
        var keyboard := Buttons(question.options);
        log := log + [SendMessage(chat, question.prompt, Inline(keyboard))];
      } else {
        log := log + [SendMessage(chat, question.prompt, NoMarkup)];
      }
    }

    /** The `/start` handler. */
    method Start(chat: ChatId)
      requires Valid()
      modifies this
      ensures Valid()
      ensures Snapshot() == Flow.Start(old(Snapshot()), chat)
    {
      sessions := sessions[chat := Session(0, map[])];
      AskQuestion(chat);
      StepPreservesInv(old(Snapshot()), StartCmd(chat));
    }

    /** The tail of both answer handlers: thank the user, save the record, mail
        the operator or apologise, and drop the session. */
    method Finalize(chat: ChatId, saveOk: bool)
      requires chat in sessions
      modifies this
      ensures Snapshot() == Flow.Finalize(old(Snapshot()), chat, saveOk)
    {
      log := log + [SendMessage(chat, ThankYou, NoMarkup)];
      var lead := sessions[chat].answers;
      log := log + [SaveLead(lead)];
      if saveOk {
        log := log + [Notify(lead)];
      } else {
        log := log + [SendMessage(chat, Apology, NoMarkup)];
      }
      sessions := sessions - {chat};
    }

    /** The `callback_query` handler. */
    method OnCallback(chat: ChatId, data: string, saveOk: bool)
      requires Valid()
      modifies this
      ensures Valid()
      ensures Snapshot() == Callback(old(Snapshot()), chat, data, saveOk)
    {
      if chat in sessions {
        var stage := sessions[chat].stage;
        var question := Questions[stage];
        sessions := sessions[chat := sessions[chat].(answers := sessions[chat].answers[question.key := data])];
        if stage < Last {
          sessions := sessions[chat := sessions[chat].(stage := stage + 1)];
          AskQuestion(chat);
        } else {
          Finalize(chat, saveOk);
        }
      }
      StepPreservesInv(old(Snapshot()), CallbackQuery(chat, data, saveOk));
    }

    /** The `text` handler. */
    method OnText(chat: ChatId, text: string, saveOk: bool)
      requires Valid()
      modifies this
      ensures Valid()
      ensures Snapshot() == Text(old(Snapshot()), chat, text, saveOk)
    {
      if chat in sessions && sessions[chat].stage == Last {
        sessions := sessions[chat := sessions[chat].(answers := sessions[chat].answers[ContactKey := text])];
        Finalize(chat, saveOk);
      }
      StepPreservesInv(old(Snapshot()), TextMessage(chat, text, saveOk));
    }
  }
}
