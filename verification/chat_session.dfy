/**
  The chat page's transcript as explicit state: the client-side crisis
  detector, sending a message, receiving the reply, and choosing a mood.
  Each handler is a pure function from the state before to the state after.
 */
module ChatSession {
  import opened Basics
  import opened Text
  import ChatRoute

  /** The page's own crisis list; it differs from the route's list. */
  const CrisisKeywords: seq<string> := ["suicide", "kill myself", "harm", "overdose", "end it", "can't take it"]

  /** True when some client crisis keyword occurs in the lower-cased text. */
  function DetectCrisis(text: string): (r: bool)
    ensures r <==> exists j :: 0 <= j < |CrisisKeywords| && Contains(Lower(text), CrisisKeywords[j])
  {
    ContainsAny(Lower(text), CrisisKeywords)
  }

  /** Texts that agree after lower-casing get the same answer. */
  lemma DetectCrisisCaseInsensitive(a: string, b: string)
    ensures DetectCrisis(Lower(a)) == DetectCrisis(a)
    ensures Lower(a) == Lower(b) ==> DetectCrisis(a) == DetectCrisis(b)
  {
    LowerIdempotent(a);
  }

  /** Every route crisis keyword is longer than four characters. */
  lemma RouteCrisisKeywordsAreLong()
    ensures forall j :: 0 <= j < |ChatRoute.CrisisKeywords| ==> |ChatRoute.CrisisKeywords[j]| > 4
  {
  }

  /** "harm" raises the page's alert: it is the page's third keyword. */
  lemma HarmIsClientCrisis()
    ensures DetectCrisis("harm")
  {
    LowerOfLowerCase("harm");
    assert OccursAt("harm", CrisisKeywords[2], 0);
  }

  /** "death" is a crisis for the route: it is one of the route's crisis keywords. */
  lemma DeathIsRouteCrisis()
    ensures ChatRoute.CrisisMatch("death")
  {
    LowerOfLowerCase("death");
    var k := ChatRoute.CrisisKeywords[18];
    assert k == "death";
    assert OccursAt("death", k, 0);
    assert Contains("death", k);
  }

  /** No route crisis keyword occurs in "harm". */
  lemma HarmIsNoRouteCrisis()
    ensures !ChatRoute.CrisisMatch("harm")
  {
    LowerOfLowerCase("harm");
    RouteCrisisKeywordsAreLong();
  }

  /** No client crisis keyword occurs in "death". */
  lemma DeathIsNoClientCrisis()
    ensures !DetectCrisis("death")
  {
    LowerOfLowerCase("death");
    AbsentCharNotContained("death", "harm", 2);
    assert forall j :: 0 <= j < |CrisisKeywords| && j != 2 ==> |CrisisKeywords[j]| > 5;
  }

  /**
    The page and the route use different crisis lists: "harm" raises the
    page's alert yet is no crisis for the route, and "death" is a crisis
    for the route yet raises no alert on the page.
   */
  lemma CrisisListsDiverge()
    ensures DetectCrisis("harm") && !ChatRoute.CrisisMatch("harm")
    ensures !DetectCrisis("death") && ChatRoute.DetectEmotion("death") == ChatRoute.Crisis
  {
    HarmIsClientCrisis();
    HarmIsNoRouteCrisis();
    DeathIsRouteCrisis();
    DeathIsNoClientCrisis();
  }

  datatype Sender = User | Bot

  /** One transcript line; the id and timestamp are not modelled. */
  datatype Message = Message(text: string, sender: Sender, emotion: Option<string>)

  /** The page state the handlers read and write. */
  datatype ChatState = ChatState(
    messages: seq<Message>,
    input: string,
    loading: bool,
    showCrisisAlert: bool,
    showMoodSelector: bool)

  /** The request body posted to the chat route. */
  datatype ApiRequest = ApiRequest(message: string, conversationHistory: seq<ChatRoute.Turn>)

  /** The route's successful answer. */
  datatype ApiReply = ApiReply(response: string, emotion: string)

  /** The state after a send, and the request it posts (none when nothing is sent). */
  datatype SendResult = SendResult(state: ChatState, request: Option<ApiRequest>)

  const ErrorReplyText: string := "I'm having trouble responding right now. Please try again in a moment."

  /** The role a transcript line has for the model. */
  function RoleOf(s: Sender): ChatRoute.Role
  {
    if s == User then ChatRoute.UserRole else ChatRoute.AssistantRole
  }

  /** The transcript as model turns: same order, user lines as user, the rest as assistant. */
  function HistoryOf(messages: seq<Message>): (h: seq<ChatRoute.Turn>)
    ensures |h| == |messages|
    ensures forall i :: 0 <= i < |messages| ==>
      h[i].content == messages[i].text &&
      (h[i].role == ChatRoute.UserRole <==> messages[i].sender == User)
  {
    if |messages| == 0 then []
    else [ChatRoute.Turn(RoleOf(messages[0].sender), messages[0].text)] + HistoryOf(messages[1..])
  }

  /**
    Submitting the input box. Input that is empty after trimming changes
    nothing and posts nothing. Otherwise the input is appended as a user
    line, the box is cleared, the page waits for the reply, the alert is
    raised when the client list matches, and the request carries the
    transcript as it was before the append.
   */
  function SendMessage(st: ChatState): (r: SendResult)
    ensures Trim(st.input) == [] ==> r == SendResult(st, None)
    ensures Trim(st.input) != [] ==>
      && r.state.messages == st.messages + [Message(st.input, User, None)]
      && r.state.input == ""
      && r.state.loading
      && r.state.showCrisisAlert == (st.showCrisisAlert || DetectCrisis(st.input))
      && r.state.showMoodSelector == st.showMoodSelector
      && r.request == Some(ApiRequest(st.input, HistoryOf(st.messages)))
  {
    if Trim(st.input) == [] then SendResult(st, None)
    else
      var alert := if DetectCrisis(st.input) then true else st.showCrisisAlert;
      var next := st.(
        messages := st.messages + [Message(st.input, User, None)],
        input := "",
        loading := true,
        showCrisisAlert := alert);
      SendResult(next, Some(ApiRequest(st.input, HistoryOf(st.messages))))
  }

  /**
    The answer (or failure) of the request arrives: one bot line is
    appended, carrying the answer and its label, or the fixed apology
    when the request failed, and the page stops waiting.
   */
  function ReceiveReply(st: ChatState, reply: Option<ApiReply>): (r: ChatState)
    ensures |r.messages| == |st.messages| + 1 && r.messages[..|st.messages|] == st.messages
    ensures r.messages[|st.messages|].sender == Bot
    ensures reply.Some? ==>
      r.messages[|st.messages|] == Message(reply.value.response, Bot, Some(reply.value.emotion))
    ensures reply.None? ==> r.messages[|st.messages|] == Message(ErrorReplyText, Bot, None)
    ensures !r.loading
    ensures r.input == st.input && r.showCrisisAlert == st.showCrisisAlert
    ensures r.showMoodSelector == st.showMoodSelector
  {
    var line := match reply
      case Some(a) => Message(a.response, Bot, Some(a.emotion))
      case None => Message(ErrorReplyText, Bot, None);
    st.(messages := st.messages + [line], loading := false)
  }

  /** Choosing a mood hides the selector and restarts the transcript with its greeting. */
  function SelectMood(st: ChatState, greeting: string): (r: ChatState)
    ensures r.messages == [Message(greeting, Bot, None)]
    ensures !r.showMoodSelector
    ensures r.input == st.input && r.loading == st.loading
    ensures r.showCrisisAlert == st.showCrisisAlert
  {
    st.(showMoodSelector := false, messages := [Message(greeting, Bot, None)])
  }

  /** The things that can happen to the page's state. */
  datatype Event =
    | Type(text: string)
    | Send
    | Receive(reply: Option<ApiReply>)
    | ChooseMood(greeting: string)

  /**
    One event. Typing changes only the input box; sending and receiving
    keep the transcript as a prefix; a raised alert stays raised.
   */
  function Step(st: ChatState, e: Event): (r: ChatState)
    ensures e.Type? ==> r == st.(input := e.text)
    ensures !e.ChooseMood? ==> |st.messages| <= |r.messages| && r.messages[..|st.messages|] == st.messages
    ensures st.showCrisisAlert ==> r.showCrisisAlert
  {
    match e
    case Type(text) => st.(input := text)
    case Send => SendMessage(st).state
    case Receive(reply) => ReceiveReply(st, reply)
    case ChooseMood(greeting) => SelectMood(st, greeting)
  }

  /**
    A sequence of events, first to last. Without a mood choice among them
    the transcript only grows: the one before is a prefix of the one after.
   */
  function Run(st: ChatState, events: seq<Event>): (r: ChatState)
    ensures (forall i :: 0 <= i < |events| ==> !events[i].ChooseMood?) ==>
      |st.messages| <= |r.messages| && r.messages[..|st.messages|] == st.messages
    decreases |events|
  {
    if |events| == 0 then st else Run(Step(st, events[0]), events[1..])
  }

  /** Once raised, the crisis alert stays up whatever happens next. */
  lemma {:induction false} CrisisAlertIsSticky(st: ChatState, events: seq<Event>)
    requires st.showCrisisAlert
    ensures Run(st, events).showCrisisAlert
    decreases |events|
  {
    if |events| > 0 {
      CrisisAlertIsSticky(Step(st, events[0]), events[1..]);
    }
  }

  /** Sending a message the client list flags always raises the alert. */
  lemma CrisisInputRaisesAlert(st: ChatState)
    ensures Trim(st.input) != [] && DetectCrisis(st.input) ==>
      && Step(st, Send).showCrisisAlert
      && |Step(st, Send).messages| == |st.messages| + 1
      && Step(st, Send).messages[|st.messages|] == Message(st.input, User, None)
  {
  }

  /**
    The request a send posts is what the route turns into its prompt: the
    prior transcript as turns and then the new user turn, one longer than
    the transcript before the send.
   */
  lemma SendFeedsRoutePrompt(st: ChatState)
    requires Trim(st.input) != []
    ensures var req := SendMessage(st).request.value;
      var prompt := ChatRoute.BuildPrompt(Some(req.conversationHistory), req.message);
      && |prompt| == |st.messages| + 1
      && |prompt| == |SendMessage(st).state.messages|
      && prompt[|st.messages|] == ChatRoute.Turn(ChatRoute.UserRole, st.input)
      && forall i :: 0 <= i < |st.messages| ==> prompt[i].content == st.messages[i].text
  {
  }
}
