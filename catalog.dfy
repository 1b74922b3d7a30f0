/** The fixed questionnaire of the lead-intake bot (bot.js): seven questions in
    traversal order, the inline buttons offered for a question, and the fields
    of the stored lead record. */
module Catalog {

  /** One question: the prompt shown, the options offered as buttons (empty for
      a free-text question) and the field under which the answer is stored. */
  datatype Question = Question(prompt: string, options: seq<string>, key: string)

  /** One inline-keyboard button: the label shown and the data the chat client
      sends back when it is pressed. */
  datatype Button = Button(text: string, callbackData: string)

  const Questions: seq<Question> := [
    Question("Привіт! Я бот, який допоможе зібрати інформацію про ваш проєкт. Почнемо! Яка у вас задача?",
             ["Розробка сайту", "Розробка мобільного додатку", "Інше"], "task"),
    Question("Чи маєте ви вже якийсь план або проект, або вам потрібна допомога з розробкою з нуля?",
             ["Є план", "Немає плану", "Не впевнений"], "plan"),
    Question("Який бюджет ви плануєте для цього проєкту?",
             ["Менше 10 000 грн", "10 000 - 50 000 грн", "Більше 50 000 грн"], "budget"),
    Question("Які терміни ви хочете встановити для виконання робіт?",
             ["1-3 місяці", "3-6 місяців", "Більше 6 місяців"], "timeline"),
    Question("Чи є у вас які-небудь переваги щодо технологій або платформ, які потрібно використовувати?",
             ["Так", "Ні", "Не знаю"], "techPreferences"),
    Question("Чи можемо ми зв'язатися для уточнення деталей?",
             ["Так", "Ні", "Можливо"], "contact"),
    Question("Будь ласка, надайте свій контакт (номер телефону або email).",
             [], "userContact")
  ]

  /** Index of the last question, `questions.length - 1`. */
  const Last: nat := 6

  /** The field the free-text handler writes by name. */
  const ContactKey: string := "userContact"

  /** The fields of the lead schema. */
  const SchemaFields: set<string> :=
    {"task", "plan", "budget", "timeline", "techPreferences", "contact", "userContact"}

  /** The fields answered by the questions before index `n`. */
  function KeysUpTo(n: nat): set<string>
    requires n <= |Questions|
  {
    set i | 0 <= i < n :: Questions[i].key
  }

  /** The catalog's shape: `Last` is its last index, the field keys are pairwise
      distinct, only the last question is free text, and that question's field
      is the one the free-text handler writes. */
  lemma CatalogShape()
    ensures |Questions| == Last + 1
    ensures forall i, j :: 0 <= i < j < |Questions| ==> Questions[i].key != Questions[j].key
    ensures forall i :: 0 <= i < |Questions| ==> (Questions[i].options == [] <==> i == Last)
    ensures Questions[Last].key == ContactKey
  {
  }

  /** Answering one more question adds exactly its field. */
  lemma KeysUpToNext(n: nat)
    requires n < |Questions|
    ensures KeysUpTo(n + 1) == KeysUpTo(n) + {Questions[n].key}
  {
    forall k | k in KeysUpTo(n + 1)
      ensures k in KeysUpTo(n) + {Questions[n].key}
    {
      var i :| 0 <= i < n + 1 && Questions[i].key == k;
    }
  }

  /** The questionnaire's fields are exactly the lead schema's fields. */
  lemma AllKeysAreSchema()
    ensures KeysUpTo(|Questions|) == SchemaFields
  {
    var keys := KeysUpTo(|Questions|);
    assert Questions[0].key in keys && Questions[1].key in keys && Questions[2].key in keys;
    assert Questions[3].key in keys && Questions[4].key in keys && Questions[5].key in keys;
    assert Questions[6].key in keys;
  }

  /** Fields answered before any index lie within the schema. */
  lemma KeysUpToInSchema(n: nat)
    requires n <= |Questions|
    ensures KeysUpTo(n) <= SchemaFields
  {
    AllKeysAreSchema();
  }

  /** The inline keyboard for a list of options: one button per option, in
      order, whose label and callback data are both the option itself. */
  function Buttons(options: seq<string>): (r: seq<Button>)
    ensures |r| == |options|
    ensures forall i :: 0 <= i < |r| ==> r[i].text == options[i] && r[i].callbackData == options[i]
  {
    if options == [] then [] else [Button(options[0], options[0])] + Buttons(options[1..])
  }

  /** The callback data of each button, in order: what a press can send back. */
  function Pressable(buttons: seq<Button>): seq<string>
  {
    if buttons == [] then [] else [buttons[0].callbackData] + Pressable(buttons[1..])
  }

  /** Pressing a button sends back exactly the option it was built from. */
  lemma {:induction false} PressableButtons(options: seq<string>)
    ensures Pressable(Buttons(options)) == options
  {
    if options != [] {
      PressableButtons(options[1..]);
      assert Buttons(options)[1..] == Buttons(options[1..]);
    }
  }
}
