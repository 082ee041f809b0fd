/**
 The chat log of ChatModal.js: the list of messages shown, the text being
 typed, and the flag that shows "LexIA está escribiendo...".

 A reply is simulated with a timer. Every call of fetchLexiaResponse sets the
 typing flag and starts one timer carrying the user's text; when the timer
 fires, a LexIA message quoting that text is appended to whatever the log is
 at that moment and the flag is cleared. All timers have the same delay, so
 they fire in the order they were started: the model keeps the texts of the
 timers still running as a queue, `pending`, and the firing of the oldest one
 is an event of its own that may happen at any time. Closing the modal does
 not stop the timers.

 The pure functions OnOpen, OnClose, OnInput, OnSend and OnReply give the
 effect of each event on a ChatState; the class ChatModal holds the same state
 in mutable fields and each of its handlers is proved to match its function.
 */
module Chat {
  import JsText

  datatype Sender = User | Lexia

  datatype Message = Message(sender: Sender, text: string)

  const Welcome: string :=
    "Hola! Soy LexIA, tu asistente legal inteligente general. \U{00BF}En qu\U{00E9} puedo ayudarte hoy?"

  const ReplyPrefix: string := "(Respuesta Simulada - Asistente General LexIA) He recibido tu consulta sobre \""

  const ReplySuffix: string :=
    "\". En una implementaci\U{00F3}n real, procesar\U{00ED}a tu pregunta y, si estuviera configurado, podr\U{00ED}a interactuar v\U{00ED}a Telegram."

  /** A text shaped like a simulated answer. */
  predicate IsReply(text: string) {
    |text| >= |ReplyPrefix| + |ReplySuffix| &&
    text[..|ReplyPrefix|] == ReplyPrefix && text[|text| - |ReplySuffix|..] == ReplySuffix
  }

  /** The query a simulated answer quotes. */
  function QuotedQuery(text: string): string
    requires IsReply(text)
  {
    text[|ReplyPrefix|..|text| - |ReplySuffix|]
  }

  /** The simulated answer to `query`: recognisable as one, and quoting
      exactly the text it answers. */
  function SimulatedReply(query: string): (r: string)
    ensures IsReply(r) && QuotedQuery(r) == query
  {
    var t := ReplyPrefix + query + ReplySuffix;
    assert t[..|ReplyPrefix|] == ReplyPrefix;
    assert t[|t| - |ReplySuffix|..] == ReplySuffix;
    assert t[|ReplyPrefix|..|t| - |ReplySuffix|] == query;
    t
  }

  /** Everything ChatModal holds: its `isOpen` prop, its three state fields,
      and the texts of the reply timers still running, oldest first. */
  datatype ChatState = ChatState(
    isOpen: bool,
    messages: seq<Message>,
    input: string,
    typing: bool,
    pending: seq<string>)

  /** A mounted, closed modal. */
  const Initial: ChatState := ChatState(false, [], "", false, [])

  /** Invariant: the typing flag is up only while a reply timer is running,
      and a closed modal has an empty input, no typing flag, and a log that
      holds nothing but replies that arrived after it was closed. */
  ghost predicate Inv(s: ChatState) {
    && (s.typing ==> s.pending != [])
    && (!s.isOpen ==>
          s.input == "" && !s.typing &&
          forall i :: 0 <= i < |s.messages| ==> s.messages[i].sender == Lexia && IsReply(s.messages[i].text))
  }

  /** The open/close effect when the modal is (re)opened: with an initial
      message the log becomes that user message and a reply is requested,
      otherwise the log becomes the welcome message. */
  function OnOpen(s: ChatState, initialMessage: string): (r: ChatState)
    ensures r.isOpen && r.input == s.input
    ensures initialMessage != "" ==>
              r.messages == [Message(User, initialMessage)] && r.typing && r.pending == s.pending + [initialMessage]
    ensures initialMessage == "" ==>
              r.messages == [Message(Lexia, Welcome)] && r.typing == s.typing && r.pending == s.pending
    ensures Inv(s) ==> Inv(r)
  {
    if initialMessage != "" then
      s.(isOpen := true, messages := [Message(User, initialMessage)], typing := true, pending := s.pending + [initialMessage])
    else
      s.(isOpen := true, messages := [Message(Lexia, Welcome)])
  }

  /** The open/close effect when the modal is closed: log, input and flag are
      cleared; the running timers are not touched. */
  function OnClose(s: ChatState): (r: ChatState)
    ensures !r.isOpen && r.messages == [] && r.input == "" && !r.typing
    ensures r.pending == s.pending
    ensures Inv(s) ==> Inv(r)
  {
    s.(isOpen := false, messages := [], input := "", typing := false)
  }

  /** The input's onChange. The input is only on screen while the modal is
      open, and it is disabled while LexIA is typing. */
  function OnInput(s: ChatState, text: string): (r: ChatState)
    requires s.isOpen && !s.typing
    ensures r.input == text
    ensures r.isOpen == s.isOpen && r.messages == s.messages && r.typing == s.typing && r.pending == s.pending
    ensures Inv(s) ==> Inv(r)
  {
    s.(input := text)
  }

  /** handleSendMessage, with the fetchLexiaResponse call it makes: refused
      when the trimmed input is empty or LexIA is typing; otherwise the
      trimmed text is appended as a user message, the input is cleared and a
      reply is requested. The form is only on screen while the modal is open. */
  function OnSend(s: ChatState): (r: ChatState)
    requires s.isOpen
    ensures JsText.Trim(s.input) == "" || s.typing ==> r == s
    ensures JsText.Trim(s.input) != "" && !s.typing ==>
              && r.messages == s.messages + [Message(User, JsText.Trim(s.input))]
              && r.input == "" && r.typing && r.pending == s.pending + [JsText.Trim(s.input)] && r.isOpen
    ensures Inv(s) ==> Inv(r)
  {
    var trimmed := JsText.Trim(s.input);
    if trimmed == "" || s.typing then s
    else s.(messages := s.messages + [Message(User, trimmed)], input := "", typing := true, pending := s.pending + [trimmed])
  }

  /** A send is refused exactly when the input is nothing but white space or
      an answer is being typed, and a message it adds is non-empty and has no
      white space to trim at either end. */
  lemma SendRefusedIff(s: ChatState)
    requires s.isOpen
    ensures OnSend(s) == s <==> JsText.AllWhiteSpace(s.input) || s.typing
    ensures OnSend(s) != s ==>
              var sent := OnSend(s).messages[|s.messages|].text;
              sent != "" && JsText.Trim(sent) == sent
  {
    JsText.TrimEmptyIff(s.input);
    JsText.TrimIdempotent(s.input);
    if !JsText.AllWhiteSpace(s.input) && !s.typing {
      assert |OnSend(s).messages| == |s.messages| + 1;
    }
  }

  /** The oldest running timer fires: its reply is appended to the log as it
      is now, whatever happened since the timer was started, and the typing
      flag is cleared. */
  function OnReply(s: ChatState): (r: ChatState)
    requires s.pending != []
    ensures |r.messages| == |s.messages| + 1 && r.messages[..|s.messages|] == s.messages
    ensures r.messages[|s.messages|].sender == Lexia
    ensures IsReply(r.messages[|s.messages|].text) && QuotedQuery(r.messages[|s.messages|].text) == s.pending[0]
    ensures !r.typing && r.pending == s.pending[1..]
    ensures r.isOpen == s.isOpen && r.input == s.input
    ensures Inv(s) ==> Inv(r)
  {
    s.(messages := s.messages + [Message(Lexia, SimulatedReply(s.pending[0]))], typing := false, pending := s.pending[1..])
  }

  datatype ChatEvent =
    | Opened(initialMessage: string)
    | Closed
    | Typed(text: string)
    | SendClicked
    | ReplyFired

  /** The event can happen in state `s`. */
  predicate Enabled(s: ChatState, e: ChatEvent) {
    match e
    case Typed(_) => s.isOpen && !s.typing
    case SendClicked => s.isOpen
    case ReplyFired => s.pending != []
    case _ => true
  }

  function Step(s: ChatState, e: ChatEvent): ChatState
    requires Enabled(s, e)
  {
    match e
    case Opened(m) => OnOpen(s, m)
    case Closed => OnClose(s)
    case Typed(text) => OnInput(s, text)
    case SendClicked => OnSend(s)
    case ReplyFired => OnReply(s)
  }

  /** Each event of the sequence can happen in the state it meets. */
  predicate Feasible(s: ChatState, events: seq<ChatEvent>)
    decreases |events|
  {
    events == [] || (Enabled(s, events[0]) && Feasible(Step(s, events[0]), events[1..]))
  }

  function Run(s: ChatState, events: seq<ChatEvent>): ChatState
    requires Feasible(s, events)
    decreases |events|
  {
    if events == [] then s else Run(Step(s, events[0]), events[1..])
  }

  /** No event opens or closes the modal. */
  predicate WithinSession(events: seq<ChatEvent>) {
    forall i :: 0 <= i < |events| ==> !events[i].Opened? && !events[i].Closed?
  }

  /** A message the chat can add by itself: a user message whose text is
      non-empty and already trimmed, or a simulated answer. */
  predicate Appendable(m: Message) {
    match m.sender
    case User => m.text != "" && JsText.Trim(m.text) == m.text
    case Lexia => IsReply(m.text)
  }

  /** One event other than opening or closing adds at most one message, at
      the end of the log, and only a trimmed user message or an answer. */
  lemma StepAppends(s: ChatState, e: ChatEvent)
    requires Enabled(s, e) && !e.Opened? && !e.Closed?
    ensures |s.messages| <= |Step(s, e).messages| <= |s.messages| + 1
    ensures Step(s, e).messages[..|s.messages|] == s.messages
    ensures |Step(s, e).messages| > |s.messages| ==> Appendable(Step(s, e).messages[|s.messages|])
  {
    match e
    case Typed(_) =>
    case SendClicked => SendRefusedIff(s);
    case ReplyFired =>
  }

  /** Apart from opening and closing, the log only grows at its end, by at
      most one message per event, and only by trimmed user messages and
      simulated answers. */
  lemma {:induction false} LogOnlyGrows(s: ChatState, events: seq<ChatEvent>)
    requires Feasible(s, events) && WithinSession(events)
    ensures |s.messages| <= |Run(s, events).messages| <= |s.messages| + |events|
    ensures Run(s, events).messages[..|s.messages|] == s.messages
    ensures forall k :: |s.messages| <= k < |Run(s, events).messages| ==> Appendable(Run(s, events).messages[k])
    decreases |events|
  {
    if events != [] {
      var t := Step(s, events[0]);
      StepAppends(s, events[0]);
      assert WithinSession(events[1..]);
      LogOnlyGrows(t, events[1..]);
      var r := Run(t, events[1..]);
      assert r.messages[..|s.messages|] == r.messages[..|t.messages|][..|s.messages|];
      forall k | |s.messages| <= k < |r.messages| ensures Appendable(r.messages[k]) {
        if k < |t.messages| {
          assert r.messages[k] == r.messages[..|t.messages|][k];
        }
      }
    }
  }

  /** The log ends with a user message. */
  predicate AwaitsAnswer(messages: seq<Message>) {
    messages != [] && messages[|messages| - 1].sender == User
  }

  /** Every user message that is not the last one is followed by the
      simulated answer to it. */
  predicate TakesTurns(messages: seq<Message>) {
    forall k :: 0 <= k < |messages| - 1 && messages[k].sender == User ==>
      messages[k + 1] == Message(Lexia, SimulatedReply(messages[k].text))
  }

  /** An orderly conversation: at most one reply outstanding, the typing flag
      up exactly while it is and exactly while the last message is the
      user's, the outstanding reply being for that last message, and every
      earlier user message followed by its own answer. */
  predicate Orderly(s: ChatState) {
    && |s.pending| <= 1
    && (s.typing <==> s.pending != [])
    && (s.typing <==> AwaitsAnswer(s.messages))
    && (s.pending != [] ==> s.messages != [] && s.pending[0] == s.messages[|s.messages| - 1].text)
    && TakesTurns(s.messages)
  }

  /** A modal opened with no reply timer running starts an orderly
      conversation. */
  lemma OpenIsOrderly(s: ChatState, initialMessage: string)
    requires s.pending == [] && !s.typing
    ensures Orderly(OnOpen(s, initialMessage))
  {
  }

  /** A send adds a user message only when no answer is outstanding. */
  lemma SendKeepsOrderly(s: ChatState)
    requires Orderly(s) && s.isOpen
    ensures Orderly(OnSend(s))
  {
  }

  /** An answer arrives only while the user's message is the last one. */
  lemma ReplyKeepsOrderly(s: ChatState)
    requires Orderly(s) && s.pending != []
    ensures Orderly(OnReply(s))
  {
  }

  /** One event inside a session keeps the conversation orderly: the send
      guard refuses a second question while an answer is outstanding. */
  lemma StepKeepsOrderly(s: ChatState, e: ChatEvent)
    requires Orderly(s) && Enabled(s, e) && !e.Opened? && !e.Closed?
    ensures Orderly(Step(s, e))
  {
    match e
    case Typed(_) =>
    case SendClicked => SendKeepsOrderly(s);
    case ReplyFired => ReplyKeepsOrderly(s);
  }

  /** Within one session that started orderly, it stays orderly: every user
      message but the last is answered by the very next message, which quotes
      it, and the reply still outstanding is for the last one. */
  lemma {:induction false} SessionStaysOrderly(s: ChatState, events: seq<ChatEvent>)
    requires Orderly(s) && Feasible(s, events) && WithinSession(events)
    ensures Orderly(Run(s, events))
    decreases |events|
  {
    if events != [] {
      StepKeepsOrderly(s, events[0]);
      assert WithinSession(events[1..]);
      SessionStaysOrderly(Step(s, events[0]), events[1..]);
    }
  }

  /** Closing does not cancel a reply that is on its way: it is appended to
      the emptied log of the closed modal. */
  lemma ReplyAfterCloseLands(question: string)
    requires question != ""
    ensures var closed := OnClose(OnOpen(Initial, question));
            && closed.pending == [question]
            && OnReply(closed).messages == [Message(Lexia, SimulatedReply(question))]
            && !OnReply(closed).isOpen
  {
  }

  /** A reply still on its way when the modal is closed and reopened answers
      the next question of the new session: the answer shown after "b"
      quotes "a". */
  lemma StaleReplyAnswersNextQuestion()
    ensures var s := OnOpen(OnClose(OnOpen(Initial, "a")), "");
            && s.pending == ["a"] && !s.typing
            && var t := OnReply(OnSend(OnInput(s, "b")));
               t.messages == [Message(Lexia, Welcome), Message(User, "b"), Message(Lexia, SimulatedReply("a"))]
               && !t.typing && t.pending == ["b"]
  {
  }

  /** The ChatModal component's state, updated in place by its handlers. */
  class ChatModal {
    var isOpen: bool
    var messages: seq<Message>
    var input: string
    var isLexiaTyping: bool
    /** The texts of the reply timers still running, oldest first. */
    var pending: seq<string>

    function State(): ChatState
      reads this
    {
      ChatState(isOpen, messages, input, isLexiaTyping, pending)
    }

    ghost predicate Valid()
      reads this
    {
      Inv(State())
    }

    /** Mounting with the modal closed: the initial `useState` values. */
    constructor ()
      ensures Valid() && State() == Initial
    {
      isOpen := false;
      messages := [];
      input := "";
      isLexiaTyping := false;
      pending := [];
    }

    /** fetchLexiaResponse: raise the typing flag and start a reply timer. */
    method FetchLexiaResponse(userInput: string)
      requires Valid() && isOpen
      modifies this
      ensures Valid()
      ensures isLexiaTyping && pending == old(pending) + [userInput]
      ensures isOpen == old(isOpen) && messages == old(messages) && input == old(input)
    {
      isLexiaTyping := true;
      pending := pending + [userInput];
    }

    /** The open/close effect, run with `isOpen` true. */
    method Open(initialMessage: string)
      requires Valid()
      modifies this
      ensures Valid()
      ensures isOpen && input == old(input)
      ensures initialMessage != "" ==>
                messages == [Message(User, initialMessage)] && isLexiaTyping && pending == old(pending) + [initialMessage]
      ensures initialMessage == "" ==>
                messages == [Message(Lexia, Welcome)] && isLexiaTyping == old(isLexiaTyping) && pending == old(pending)
      ensures State() == OnOpen(old(State()), initialMessage)
    {
      isOpen := true;
      if initialMessage != "" {
        messages := [Message(User, initialMessage)];
        FetchLexiaResponse(initialMessage);
      } else {
        messages := [Message(Lexia, Welcome)];
      }
    }

    /** The open/close effect, run with `isOpen` false. */
    method Close()
      requires Valid()
      modifies this
      ensures Valid()
      ensures !isOpen && messages == [] && input == "" && !isLexiaTyping
      ensures pending == old(pending)
      ensures State() == OnClose(old(State()))
    {
      isOpen := false;
      messages := [];
      input := "";
      isLexiaTyping := false;
    }

    /** The input's onChange. */
    method HandleInputChange(text: string)
      requires Valid() && isOpen && !isLexiaTyping
      modifies this`input
      ensures Valid() && input == text
      ensures State() == OnInput(old(State()), text)
    {
      input := text;
    }

    method HandleSendMessage()
      requires Valid() && isOpen
      modifies this
      ensures Valid()
      ensures JsText.Trim(old(input)) == "" || old(isLexiaTyping) ==> unchanged(this)
      ensures JsText.Trim(old(input)) != "" && !old(isLexiaTyping) ==>
                && messages == old(messages) + [Message(User, JsText.Trim(old(input)))]
                && input == "" && isLexiaTyping && pending == old(pending) + [JsText.Trim(old(input))]
      ensures State() == OnSend(old(State()))
    {
      var trimmedInput := JsText.Trim(input);
      if trimmedInput == "" || isLexiaTyping {
        return;
      }
      messages := messages + [Message(User, trimmedInput)];
      input := "";
      FetchLexiaResponse(trimmedInput);
    }

    /** The oldest reply timer fires. */
    method ReplyArrives()
      requires Valid() && pending != []
      modifies this
      ensures Valid()
      ensures messages == old(messages) + [Message(Lexia, SimulatedReply(old(pending)[0]))]
      ensures !isLexiaTyping && pending == old(pending)[1..]
      ensures isOpen == old(isOpen) && input == old(input)
      ensures State() == OnReply(old(State()))
    {
      var userInput := pending[0];
      pending := pending[1..];
      messages := messages + [Message(Lexia, SimulatedReply(userInput))];
      isLexiaTyping := false;
    }
  }
}
