/** The questionnaire state machine of bot.js as values: the session map keyed
    by chat id, the log of side effects it emits, and one function per event
    handler. The `Handlers.Bot` class is proved to follow these functions. */
module Flow {
  import opened Catalog

  type ChatId = int

  /** The answers a chat has given, by question field; also the lead record. */
  type Record = map<string, string>

  /** A chat's progress: the index of the question it is at and its answers. */
  datatype Session = Session(stage: nat, answers: Record)

  /** How a message is sent: as plain text, or with a row of inline buttons. */
  datatype Keyboard = NoMarkup | Inline(buttons: seq<Button>)

  /** The effects the bot has on the outside world, in the order it causes them. */
  datatype Event =
    | SendMessage(chat: ChatId, text: string, markup: Keyboard)
    | SaveLead(record: Record)
    | Notify(record: Record)

  datatype State = State(sessions: map<ChatId, Session>, log: seq<Event>)

  /** The updates the bot reacts to: the start command, a button press and a
      text message; `saveOk` is the outcome the store would give if the update
      ends the questionnaire. */
  datatype Input =
    | StartCmd(chat: ChatId)
    | CallbackQuery(chat: ChatId, data: string, saveOk: bool)
    | TextMessage(chat: ChatId, text: string, saveOk: bool)

  const ThankYou: string := "Дякую за надану інформацію! Ми зв'яжемося з вами найближчим часом."
  const Apology: string := "Вибачте, сталася помилка при збереженні даних. Спробуйте пізніше."

  /** A session is well formed when its cursor is a catalog index and it holds
      an answer for exactly the questions before the cursor. */
  predicate Tracks(ses: Session)
  {
    ses.stage <= Last && ses.answers.Keys == KeysUpTo(ses.stage)
  }

  predicate Inv(s: State)
  {
    forall c :: c in s.sessions ==> Tracks(s.sessions[c])
  }

  /** The message asking question `stage`: with one button per option when the
      question offers options, as plain text otherwise. */
  function Prompt(chat: ChatId, stage: nat): (e: Event)
    requires stage < |Questions|
    ensures e.SendMessage? && e.chat == chat && e.text == Questions[stage].prompt
    ensures e.markup.Inline? <==> Questions[stage].options != []
    ensures e.markup.Inline? ==>
      |e.markup.buttons| == |Questions[stage].options| &&
      forall i :: 0 <= i < |e.markup.buttons| ==>
        e.markup.buttons[i] == Button(Questions[stage].options[i], Questions[stage].options[i])
  {
    var q := Questions[stage];
    if |q.options| > 0 then SendMessage(chat, q.prompt, Inline(Buttons(q.options)))
    else SendMessage(chat, q.prompt, NoMarkup)
  }

  /** `/start`: the chat gets a fresh session at the first question, whatever it
      had before, and the first question is asked. */
  function Start(s: State, chat: ChatId): (r: State)
    ensures chat in r.sessions && r.sessions[chat] == Session(0, map[])
    ensures r.sessions - {chat} == s.sessions - {chat}
    ensures r.log == s.log + [Prompt(chat, 0)]
  {
    State(s.sessions[chat := Session(0, map[])], s.log + [Prompt(chat, 0)])
  }

  /** The effects of finishing a questionnaire with answers `record`: thanks
      first, then the save, then either the operator mail or the apology. */
  function Outcome(chat: ChatId, record: Record, saveOk: bool): seq<Event>
  {
    [SendMessage(chat, ThankYou, NoMarkup), SaveLead(record)]
      + (if saveOk then [Notify(record)] else [SendMessage(chat, Apology, NoMarkup)])
  }

  /** Finalisation: the session's answers are saved and its entry is removed,
      whether or not the save succeeded. */
  function Finalize(s: State, chat: ChatId, saveOk: bool): (r: State)
    requires chat in s.sessions
    ensures r.sessions == s.sessions - {chat}
    ensures chat !in r.sessions
    ensures r.log == s.log + Outcome(chat, s.sessions[chat].answers, saveOk)
  {
    State(s.sessions - {chat}, s.log + Outcome(chat, s.sessions[chat].answers, saveOk))
  }

  /** A button press. The data is stored verbatim under the current question's
      field, without checking that it is one of the offered options or that
      the question offers options at all; then the next question is asked, or,
      at the last question, the questionnaire is finalised. A cursor past the
      catalog cannot occur (see `StepPreservesInv`); the handler would fail
      before writing anything there, so the state is left as it was. */
  function Callback(s: State, chat: ChatId, data: string, saveOk: bool): (r: State)
    ensures chat !in s.sessions ==> r == s
    ensures chat in s.sessions && s.sessions[chat].stage < Last ==>
      var ses := s.sessions[chat];
      && r.sessions - {chat} == s.sessions - {chat}
      && chat in r.sessions
      && r.sessions[chat] == Session(ses.stage + 1, ses.answers[Questions[ses.stage].key := data])
      && r.log == s.log + [Prompt(chat, ses.stage + 1)]
    ensures chat in s.sessions && s.sessions[chat].stage == Last ==>
      && r.sessions == s.sessions - {chat}
      && r.log == s.log + Outcome(chat, s.sessions[chat].answers[ContactKey := data], saveOk)
    ensures chat in s.sessions && s.sessions[chat].stage > Last ==> r == s
  {
    if chat !in s.sessions || s.sessions[chat].stage > Last then s
    else
      var ses := s.sessions[chat];
      var answers := ses.answers[Questions[ses.stage].key := data];
      if ses.stage < Last then
        State(s.sessions[chat := Session(ses.stage + 1, answers)], s.log + [Prompt(chat, ses.stage + 1)])
      else
        Finalize(State(s.sessions[chat := Session(ses.stage, answers)], s.log), chat, saveOk)
  }

  /** A text message. It is taken only at the last question, stored as the
      user's contact and finalises the questionnaire; at any other point, or
      without a session, it changes nothing. */
  function Text(s: State, chat: ChatId, text: string, saveOk: bool): (r: State)
    ensures chat !in s.sessions || s.sessions[chat].stage != Last ==> r == s
    ensures chat in s.sessions && s.sessions[chat].stage == Last ==>
      && r.sessions == s.sessions - {chat}
      && r.log == s.log + Outcome(chat, s.sessions[chat].answers[ContactKey := text], saveOk)
  {
    if chat in s.sessions && s.sessions[chat].stage == Last then
      var ses := s.sessions[chat];
      Finalize(State(s.sessions[chat := ses.(answers := ses.answers[ContactKey := text])], s.log), chat, saveOk)
    else s
  }

  /** One update, dispatched to its handler. Only the update's own chat can
      change, and effects are only ever appended. */
  function Step(s: State, input: Input): (r: State)
    ensures r.sessions - {input.chat} == s.sessions - {input.chat}
    ensures s.log <= r.log
  {
    match input
    case StartCmd(chat) => Start(s, chat)
    case CallbackQuery(chat, data, saveOk) => Callback(s, chat, data, saveOk)
    case TextMessage(chat, text, saveOk) => Text(s, chat, text, saveOk)
  }

  /** A sequence of updates, handled one after another. */
  function Run(s: State, inputs: seq<Input>): State
    decreases inputs
  {
    if inputs == [] then s else Run(Step(s, inputs[0]), inputs[1..])
  }

  /** The records saved, in order. */
  function Saves(log: seq<Event>): seq<Record>
  {
    if log == [] then []
    else (if log[0].SaveLead? then [log[0].record] else []) + Saves(log[1..])
  }

  /** The records mailed to the operator, in order. */
  function Notices(log: seq<Event>): seq<Record>
  {
    if log == [] then []
    else (if log[0].Notify? then [log[0].record] else []) + Notices(log[1..])
  }

  lemma {:induction false} SavesAppend(a: seq<Event>, b: seq<Event>)
    ensures Saves(a + b) == Saves(a) + Saves(b)
    ensures Notices(a + b) == Notices(a) + Notices(b)
    decreases a
  {
    if a == [] {
      assert a + b == b;
    } else {
      assert (a + b)[0] == a[0];
      assert (a + b)[1..] == a[1..] + b;
      SavesAppend(a[1..], b);
    }
  }

  /** Finalisation thanks the user first, saves the record exactly once, mails
      it to the operator if and only if the save succeeded, and otherwise
      sends the apology. */
  lemma OutcomeEffects(chat: ChatId, record: Record, saveOk: bool)
    ensures Outcome(chat, record, saveOk)[0] == SendMessage(chat, ThankYou, NoMarkup)
    ensures Saves(Outcome(chat, record, saveOk)) == [record]
    ensures Notices(Outcome(chat, record, saveOk)) == (if saveOk then [record] else [])
    ensures SendMessage(chat, Apology, NoMarkup) in Outcome(chat, record, saveOk) <==> !saveOk
  {
    var tail := if saveOk then [Notify(record)] else [SendMessage(chat, Apology, NoMarkup)];
    SavesAppend([SendMessage(chat, ThankYou, NoMarkup), SaveLead(record)], tail);
    SavesAppend([SendMessage(chat, ThankYou, NoMarkup)], [SaveLead(record)]);
  }

  /** Every update keeps every session's cursor in the catalog and its answers
      on exactly the fields of the questions already passed. */
  lemma StepPreservesInv(s: State, input: Input)
    requires Inv(s)
    ensures Inv(Step(s, input))
  {
    var r := Step(s, input);
    var chat := input.chat;
    forall c | c in r.sessions
      ensures Tracks(r.sessions[c])
    {
      if c != chat {
        assert c in r.sessions - {chat};
      } else if input.StartCmd? {
        assert KeysUpTo(0) == {};
      } else if input.CallbackQuery? && s.sessions[chat].stage < Last {
        KeysUpToNext(s.sessions[chat].stage);
      }
    }
  }

  lemma {:induction false} RunPreservesInv(s: State, inputs: seq<Input>)
    requires Inv(s)
    ensures Inv(Run(s, inputs))
    decreases inputs
  {
    if inputs != [] {
      StepPreservesInv(s, inputs[0]);
      RunPreservesInv(Step(s, inputs[0]), inputs[1..]);
    }
  }

  /** While a session exists its answers lie on catalog fields only. */
  lemma AnswersOnCatalogFields(s: State, chat: ChatId)
    requires Inv(s) && chat in s.sessions
    ensures s.sessions[chat].answers.Keys <= SchemaFields
    ensures s.sessions[chat].stage <= Last
  {
    KeysUpToInSchema(s.sessions[chat].stage);
  }

  /** Every saved record has exactly the schema's fields. */
  predicate AllComplete(records: seq<Record>)
  {
    forall k :: 0 <= k < |records| ==> records[k].Keys == SchemaFields
  }

  /** The answers at the last question plus the contact form a complete record. */
  lemma ContactCompletes(ses: Session, contact: string)
    requires Tracks(ses) && ses.stage == Last
    ensures ses.answers[ContactKey := contact].Keys == SchemaFields
  {
    KeysUpToNext(Last);
    AllKeysAreSchema();
  }

  /** An update saves at most one record, and only a complete one. */
  lemma StepSavesComplete(s: State, input: Input)
    requires Inv(s)
    ensures var r := Step(s, input);
      exists added :: Saves(r.log) == Saves(s.log) + added && |added| <= 1 && AllComplete(added)
  {
    var r := Step(s, input);
    var chat := input.chat;
    if !input.StartCmd? && chat in s.sessions && s.sessions[chat].stage == Last {
      var contact := if input.CallbackQuery? then input.data else input.text;
      var record := s.sessions[chat].answers[ContactKey := contact];
      assert Questions[Last].key == ContactKey;
      assert r.log == s.log + Outcome(chat, record, input.saveOk);
      SavesAppend(s.log, Outcome(chat, record, input.saveOk));
      OutcomeEffects(chat, record, input.saveOk);
      ContactCompletes(s.sessions[chat], contact);
      assert Saves(r.log) == Saves(s.log) + [record];
    } else if input.StartCmd? || (chat in s.sessions && s.sessions[chat].stage < Last && input.CallbackQuery?) {
      var p := Prompt(chat, if input.StartCmd? then 0 else s.sessions[chat].stage + 1);
      assert r.log == s.log + [p];
      SavesAppend(s.log, [p]);
      assert Saves(r.log) == Saves(s.log) + [];
    } else {
      assert r == s;
      assert Saves(r.log) == Saves(s.log) + [];
    }
  }

  /** Over any run from a consistent state, every record ever saved is complete. */
  lemma {:induction false} RunSavesComplete(s: State, inputs: seq<Input>)
    requires Inv(s) && AllComplete(Saves(s.log))
    ensures AllComplete(Saves(Run(s, inputs).log))
    decreases inputs
  {
    if inputs != [] {
      var s' := Step(s, inputs[0]);
      StepSavesComplete(s, inputs[0]);
      StepPreservesInv(s, inputs[0]);
      var added :| Saves(s'.log) == Saves(s.log) + added && |added| <= 1 && AllComplete(added);
      assert AllComplete(Saves(s'.log)) by {
        forall k | 0 <= k < |Saves(s'.log)|
          ensures Saves(s'.log)[k].Keys == SchemaFields
        {
          if k < |Saves(s.log)| {
            assert Saves(s'.log)[k] == Saves(s.log)[k];
          } else {
            assert Saves(s'.log)[k] == added[k - |Saves(s.log)|];
          }
        }
      }
      RunSavesComplete(s', inputs[1..]);
    }
  }

  /** The record made of answers `values`, one per question in catalog order,
      for the first `n` questions. */
  function Fill(values: seq<string>, n: nat): Record
    requires n <= |values| && n <= |Questions|
  {
    if n == 0 then map[] else Fill(values, n - 1)[Questions[n - 1].key := values[n - 1]]
  }

  /** The filled record holds, for each question answered, exactly the value
      given for it, and nothing else. */
  lemma {:induction false} FillAt(values: seq<string>, n: nat)
    requires n <= |values| && n <= |Questions|
    ensures Fill(values, n).Keys == KeysUpTo(n)
    ensures forall i :: 0 <= i < n ==> Fill(values, n)[Questions[i].key] == values[i]
  {
    if n > 0 {
      FillAt(values, n - 1);
      KeysUpToNext(n - 1);
      CatalogShape();
    }
  }

  /** Presses of the buttons with data `values`, one after another. */
  function Presses(chat: ChatId, values: seq<string>, saveOk: bool): seq<Input>
  {
    if values == [] then [] else [CallbackQuery(chat, values[0], saveOk)] + Presses(chat, values[1..], saveOk)
  }

  lemma {:induction false} RunAppend(s: State, a: seq<Input>, b: seq<Input>)
    ensures Run(s, a + b) == Run(Run(s, a), b)
    decreases a
  {
    if a == [] {
      assert a + b == b;
    } else {
      assert (a + b)[0] == a[0];
      assert (a + b)[1..] == a[1..] + b;
      RunAppend(Step(s, a[0]), a[1..], b);
    }
  }

  /** From question `k`, pressing one button per question up to the last
      brings the chat to the last question with one answer per question
      passed, leaves every other chat alone, and saves and mails nothing. */
  lemma {:induction false} AnswerSelections(s: State, chat: ChatId, values: seq<string>, k: nat, saveOk: bool)
    requires |values| == |Questions| && k <= Last
    requires chat in s.sessions && s.sessions[chat] == Session(k, Fill(values, k))
    ensures var r := Run(s, Presses(chat, values[k..Last], saveOk));
      && r.sessions - {chat} == s.sessions - {chat}
      && chat in r.sessions && r.sessions[chat] == Session(Last, Fill(values, Last))
      && Saves(r.log) == Saves(s.log) && Notices(r.log) == Notices(s.log)
    decreases Last - k
  {
    if k == Last {
      assert values[k..Last] == [];
    } else {
      var input := CallbackQuery(chat, values[k], saveOk);
      assert values[k..Last][0] == values[k];
      assert values[k..Last][1..] == values[k + 1..Last];
      assert Presses(chat, values[k..Last], saveOk) == [input] + Presses(chat, values[k + 1..Last], saveOk);
      var s' := Step(s, input);
      assert s'.log == s.log + [Prompt(chat, k + 1)];
      SavesAppend(s.log, [Prompt(chat, k + 1)]);
      AnswerSelections(s', chat, values, k + 1, saveOk);
      RunAppend(s, [input], Presses(chat, values[k + 1..Last], saveOk));
    }
  }

  /** The whole questionnaire: `/start`, one button press per option question
      and the contact as text. The chat's session is gone afterwards, no other
      chat changes, exactly one record is saved, it holds for every field the
      value given at that field's question, and it is mailed to the operator
      if and only if the save succeeded. */
  lemma CompleteFlow(s: State, chat: ChatId, values: seq<string>, saveOk: bool)
    requires |values| == |Questions|
    ensures var r := Run(s, [StartCmd(chat)] + Presses(chat, values[..Last], saveOk)
                              + [TextMessage(chat, values[Last], saveOk)]);
      && r.sessions == s.sessions - {chat}
      && Saves(r.log) == Saves(s.log) + [Fill(values, |Questions|)]
      && Notices(r.log) == Notices(s.log) + (if saveOk then [Fill(values, |Questions|)] else [])
  {
    var presses := Presses(chat, values[..Last], saveOk);
    var text := TextMessage(chat, values[Last], saveOk);
    RunAppend(s, [StartCmd(chat)] + presses, [text]);
    RunAppend(s, [StartCmd(chat)], presses);
    var s1 := Run(s, [StartCmd(chat)]);
    assert s1 == Start(s, chat);
    SavesAppend(s.log, [Prompt(chat, 0)]);
    assert values[0..Last] == values[..Last];
    AnswerSelections(s1, chat, values, 0, saveOk);
    var s2 := Run(s1, presses);
    var r := Run(s2, [text]);
    assert r == Text(s2, chat, values[Last], saveOk);
    CatalogShape();
    var record := Fill(values, |Questions|);
    assert s2.sessions[chat].answers[ContactKey := values[Last]] == record;
    SavesAppend(s2.log, Outcome(chat, record, saveOk));
    OutcomeEffects(chat, record, saveOk);
  }

  /** The record `CompleteFlow` saves has exactly the schema's fields, each
      holding the answer given at its question. */
  lemma CompleteRecord(values: seq<string>)
    requires |values| == |Questions|
    ensures Fill(values, |Questions|).Keys == SchemaFields
    ensures forall i :: 0 <= i < |Questions| ==> Fill(values, |Questions|)[Questions[i].key] == values[i]
  {
    FillAt(values, |Questions|);
    AllKeysAreSchema();
  }
}
