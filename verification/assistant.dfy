/**
 * The style assistant on the catalogue page: a transcript of canned
 * exchanges. Every message takes the next number from a counter; picking a
 * question appends it and its answer, typing appends the visitor's text and a
 * note pointing back to the list, and changing language starts over with a
 * welcome.
 */
module Assistant {
  import opened Wrappers
  import opened Strings
  import opened Types

  datatype Sender = Bot | User

  datatype ChatMessage = ChatMessage(id: nat, from: Sender, text: string)

  /** A canned question and its answer. */
  datatype FaqItem = FaqItem(id: string, question: Copy, answer: Copy)

  const Welcome := Copy("Hi! Pick a question from the list and I will answer instantly.",
                        "أهلًا! اختار سؤال من القائمة وسأرد فورًا.")
  const Note := Copy("Pick a question from the list to get a quick answer.",
                     "الردود هنا من قائمة الأسئلة. اختار سؤال من فوق وهتلاقي الإجابة نازلة تحت.")

  /** The ids of the canned questions, in the order they are listed. */
  const FaqIds := [
    "pricing", "minimum", "bulkDiscount", "turnaround", "rush", "services", "combo",
    "fabrics", "sizes", "colors", "colorMatch", "files", "placement", "mockup",
    "sample", "designSupport", "revision", "payment", "delivery", "tracking",
    "international", "pickup", "returns", "care", "branding", "durability", "kids"]

  /** The assistant's state: the language of its copy, the input box, the
      transcript, the highlighted question, the message to animate, and the
      id counter. */
  datatype ChatState = ChatState(
    isAr: bool,
    input: string,
    messages: seq<ChatMessage>,
    activeFaqId: Option<string>,
    lastAddedId: Option<nat>,
    counter: nat)

  /** Before the first render: nothing shown, the counter at zero. */
  function Mounted(isAr: bool): ChatState {
    ChatState(isAr, "", [], None, None, 0)
  }

  /** `nextMessageId`: bumps the counter and returns its new value. */
  function NextMessageId(counter: nat): (r: (nat, nat))
    ensures r.0 > counter && r.1 == r.0
  {
    (counter + 1, counter + 1)
  }

  /** Every message id is at most the counter, and ids increase along the
      transcript, so no two messages share an id. */
  predicate IdsOrdered(s: ChatState) {
    && (forall k :: 0 <= k < |s.messages| ==> s.messages[k].id <= s.counter)
    && (forall k, m :: 0 <= k < m < |s.messages| ==> s.messages[k].id < s.messages[m].id)
  }

  /** Appends a message under the next id. */
  function Append(s: ChatState, from: Sender, text: string): (r: ChatState)
    ensures IdsOrdered(s) ==> IdsOrdered(r)
    ensures r.counter == s.counter + 1
    ensures r.messages == s.messages + [ChatMessage(r.counter, from, text)]
    ensures r == s.(messages := r.messages, counter := r.counter)
  {
    var (id, counter) := NextMessageId(s.counter);
    s.(messages := s.messages + [ChatMessage(id, from, text)], counter := counter)
  }

  /** The welcome effect: a fresh transcript holding only the welcome in
      the given language, the input cleared and no question highlighted. */
  function ResetForLanguage(s: ChatState, isAr: bool): (r: ChatState)
    ensures IdsOrdered(r) && r.isAr == isAr
    ensures |r.messages| == 1 && r.messages[0].from == Bot && r.messages[0].text == Welcome.In(isAr)
    ensures r.messages[0].id > s.counter && r.lastAddedId == Some(r.messages[0].id)
    ensures r.input == "" && r.activeFaqId == None
  {
    var (id, counter) := NextMessageId(s.counter);
    ChatState(isAr, "", [ChatMessage(id, Bot, Welcome.In(isAr))], None, Some(id), counter)
  }

  /** The welcome effect runs when the welcome text changes, that is when
      the site switches between English and either Arabic variant; a switch
      between the two Arabic variants leaves the transcript alone. */
  function ChangeLanguage(s: ChatState, lang: Language): (r: ChatState)
    ensures IdsOrdered(s) ==> IdsOrdered(r)
    ensures r.isAr == lang.IsArabic()
    ensures lang.IsArabic() == s.isAr ==> r == s
    ensures lang.IsArabic() != s.isAr ==> r == ResetForLanguage(s, lang.IsArabic())
  {
    if lang.IsArabic() == s.isAr then s else ResetForLanguage(s, lang.IsArabic())
  }

  /** The visitor's message followed by the bot's reply, each under the next
      id; the reply is the message to animate. */
  function Exchange(s: ChatState, said: string, reply: string): (r: ChatState)
    ensures IdsOrdered(s) ==> IdsOrdered(r)
    ensures r.messages == s.messages + [ChatMessage(s.counter + 1, User, said),
                                        ChatMessage(s.counter + 2, Bot, reply)]
    ensures r.counter == s.counter + 2 && r.lastAddedId == Some(s.counter + 2)
    ensures r == s.(messages := r.messages, counter := r.counter, lastAddedId := r.lastAddedId)
  {
    var s1 := Append(s, User, said);
    var s2 := Append(s1, Bot, reply);
    s2.(lastAddedId := Some(s2.counter))
  }

  /** `handleFaqSelect`: the question as the visitor's message, then its
      answer from the bot, both in the current language; the question is
      highlighted and the answer animated. */
  function SelectFaq(s: ChatState, item: FaqItem): (r: ChatState)
    ensures IdsOrdered(s) ==> IdsOrdered(r)
    ensures r.messages == s.messages + [ChatMessage(s.counter + 1, User, item.question.In(s.isAr)),
                                        ChatMessage(s.counter + 2, Bot, item.answer.In(s.isAr))]
    ensures r.activeFaqId == Some(item.id) && r.lastAddedId == Some(s.counter + 2)
    ensures r.input == s.input && r.isAr == s.isAr
  {
    Exchange(s, item.question.In(s.isAr), item.answer.In(s.isAr)).(activeFaqId := Some(item.id))
  }

  /** `handleChatSubmit`: a blank input does nothing; otherwise the trimmed
      text and the note are appended and the input cleared. */
  function SubmitChat(s: ChatState): (r: ChatState)
    ensures IdsOrdered(s) ==> IdsOrdered(r)
  {
    var trimmed := Trim(s.input);
    if trimmed == "" then s
    else Exchange(s, trimmed, Note.In(s.isAr)).(input := "")
  }

  /** A blank submit changes nothing; any other appends exactly the trimmed
      text and the note, keeps the earlier transcript and clears the input. */
  lemma SubmitChatEffect(s: ChatState)
    ensures IsBlank(s.input) ==> SubmitChat(s) == s
    ensures !IsBlank(s.input) ==>
              var r := SubmitChat(s);
              && |r.messages| == |s.messages| + 2
              && r.messages[..|s.messages|] == s.messages
              && r.messages[|s.messages|] == ChatMessage(s.counter + 1, User, Trim(s.input))
              && r.messages[|s.messages| + 1] == ChatMessage(s.counter + 2, Bot, Note.In(s.isAr))
              && r.input == "" && r.lastAddedId == Some(s.counter + 2) && r.activeFaqId == s.activeFaqId
  {
    if !IsBlank(s.input) {
      SubmitIsExchange(s);
      ExchangeThenClear(s, Trim(s.input), Note.In(s.isAr));
    }
  }

  lemma SubmitIsExchange(s: ChatState)
    requires !IsBlank(s.input)
    ensures SubmitChat(s) == Exchange(s, Trim(s.input), Note.In(s.isAr)).(input := "")
  {
  }

  /** An exchange followed by clearing the input, message by message. */
  lemma ExchangeThenClear(s: ChatState, said: string, reply: string)
    ensures var r := Exchange(s, said, reply).(input := "");
              && |r.messages| == |s.messages| + 2
              && r.messages[..|s.messages|] == s.messages
              && r.messages[|s.messages|] == ChatMessage(s.counter + 1, User, said)
              && r.messages[|s.messages| + 1] == ChatMessage(s.counter + 2, Bot, reply)
              && r.input == "" && r.lastAddedId == Some(s.counter + 2) && r.activeFaqId == s.activeFaqId
  {
    var r := Exchange(s, said, reply);
    assert r.messages[..|s.messages|] == s.messages;
  }

  /** The highlight timer: the animated message is cleared. */
  function ExpireHighlight(s: ChatState): (r: ChatState)
    ensures r.lastAddedId == None && r == s.(lastAddedId := None)
  {
    s.(lastAddedId := None)
  }

  /** What the visitor can do to the assistant. */
  datatype Action = SwitchLanguage(lang: Language) | PickFaq(item: FaqItem) | Type(text: string)
                  | Submit | Expire

  function Step(s: ChatState, a: Action): (r: ChatState)
    ensures IdsOrdered(s) ==> IdsOrdered(r)
    ensures r.counter >= s.counter
  {
    match a
    case SwitchLanguage(lang) => ChangeLanguage(s, lang)
    case PickFaq(item) => SelectFaq(s, item)
    case Type(text) => s.(input := text)
    case Submit => SubmitChat(s)
    case Expire => ExpireHighlight(s)
  }

  /** The state after a run of actions, starting from the welcome shown
      when the assistant mounts. */
  function Run(isAr: bool, actions: seq<Action>): (r: ChatState)
    ensures IdsOrdered(r)
    decreases |actions|
  {
    if |actions| == 0 then ResetForLanguage(Mounted(isAr), isAr)
    else Step(Run(isAr, actions[..|actions| - 1]), actions[|actions| - 1])
  }

  /** Whatever the visitor does, no two messages on screen share an id, so
      each is a valid list key. */
  lemma MessageIdsDistinct(isAr: bool, actions: seq<Action>)
    ensures var r := Run(isAr, actions);
            forall k, m :: 0 <= k < m < |r.messages| ==> r.messages[k].id != r.messages[m].id
  {
  }

  /** The canned questions have distinct ids, so each is a valid list key. */
  lemma FaqIdsDistinct()
    ensures |FaqIds| == 27
    ensures forall k, m :: 0 <= k < m < |FaqIds| ==> FaqIds[k] != FaqIds[m]
  {
  }
}
