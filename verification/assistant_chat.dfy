/**
 The basic assistant chat panel: an append-only log of user and assistant
 messages, a compose field and a loading flag. Sending a non-blank text appends
 the user's message at once and arms a timer whose callback appends one canned
 assistant reply. The timer is modelled as a pending reply that a later
 `TimerFired` event delivers; message ids, which the panel takes from the clock,
 are parameters of the events.
 */
module AssistantChat {
  import opened Sequences
  import opened Strings

  datatype Sender = User | Assistant

  datatype Message = Message(
    id: string,
    sender: Sender,
    content: string,
    suggestions: seq<string>,
    relatedIncidents: seq<string>)

  /** The panel's state: the log, the compose field and the loading flag. */
  datatype ChatState = ChatState(messages: seq<Message>, input: string, loading: bool)

  /** An armed reply timer; its callback remembers the text that was sent. */
  datatype PendingReply = PendingReply(prompt: string)

  const Greeting: Message := Message(
    "1", Assistant,
    "Hello! I'm your AI assistant for incident resolution. I can help you with troubleshooting, " +
    "finding similar incidents, or answering questions about your IT infrastructure. " +
    "How can I assist you today?",
    ["Show me incidents similar to email connectivity issues",
     "How do I troubleshoot VPN connection problems?",
     "What are the most common database performance issues?"],
    [])

  /** A newly mounted panel shows the greeting, an empty compose field and no spinner. */
  const InitialState: ChatState := ChatState([Greeting], "", false)

  const ReplySuggestions: seq<string> :=
    ["Search for similar incidents", "Provide troubleshooting steps", "Check knowledge base articles"]

  const ReplyIncidents: seq<string> := ["INC0012345", "INC0012340", "INC0012330"]

  /** The canned reply text around the quoted sent text. */
  const ReplyOpening: string := "I understand you're asking about \""
  const ReplyClosing: string :=
    "\". Based on our knowledge base and incident history, here are some insights " +
    "that might help you resolve this issue. Would you like me to search for similar " +
    "incidents or provide specific troubleshooting steps?"

  /** The canned reply text, quoting the sent text. */
  function ReplyText(prompt: string): (text: string)
    ensures Includes(text, prompt)
  {
    Interpolate(ReplyOpening, prompt, ReplyClosing)
  }

  /** The compose field's change handler. */
  function EditInput(s: ChatState, text: string): (r: ChatState)
    ensures r.input == text
    ensures r.messages == s.messages && r.loading == s.loading
  {
    s.(input := text)
  }

  /** Clicking a suggestion only prefills the compose field; nothing is sent. */
  function SuggestionClick(s: ChatState, suggestion: string): (r: ChatState)
    ensures r.input == suggestion
    ensures r.messages == s.messages && r.loading == s.loading
  {
    EditInput(s, suggestion)
  }

  /**
   The send handler. Blank input (empty or whitespace only) is ignored: nothing
   changes and no timer is armed. Otherwise exactly one user message carrying
   the untrimmed input is appended, the field is cleared, the spinner shown and
   a reply timer armed for the sent text.
   */
  function Send(s: ChatState, userId: string): (r: (ChatState, Option<PendingReply>))
    ensures IsBlank(s.input) ==> r.0 == s && r.1 == None
    ensures !IsBlank(s.input) ==>
      && |r.0.messages| == |s.messages| + 1
      && IsPrefix(s.messages, r.0.messages)
      && r.0.messages[|s.messages|].sender == User
      && r.0.messages[|s.messages|].content == s.input
      && r.0.messages[|s.messages|].id == userId
      && r.0.input == "" && r.0.loading
      && r.1 == Some(PendingReply(s.input))
  {
    if IsBlank(s.input) then (s, None)
    else
      var userMessage := Message(userId, User, s.input, [], []);
      (ChatState(s.messages + [userMessage], "", true), Some(PendingReply(s.input)))
  }

  /**
   The reply timer's callback: exactly one assistant message, quoting the sent
   text, is appended and the spinner hidden. The compose field is untouched.
   */
  function Reply(s: ChatState, pending: PendingReply, replyId: string): (r: ChatState)
    ensures |r.messages| == |s.messages| + 1 && IsPrefix(s.messages, r.messages)
    ensures r.messages[|s.messages|].sender == Assistant
    ensures r.messages[|s.messages|].id == replyId
    ensures Includes(r.messages[|s.messages|].content, pending.prompt)
    ensures r.messages[|s.messages|].suggestions == ReplySuggestions
    ensures r.messages[|s.messages|].relatedIncidents == ReplyIncidents
    ensures !r.loading && r.input == s.input
  {
    var reply := Message(replyId, Assistant, ReplyText(pending.prompt), ReplySuggestions, ReplyIncidents);
    ChatState(s.messages + [reply], s.input, false)
  }

  /**
   A non-blank send followed by its reply grows the log by exactly two: the
   user's text, then an assistant message quoting it. Earlier messages are kept.
   */
  lemma SendThenReply(s: ChatState, userId: string, replyId: string)
    requires !IsBlank(s.input)
    ensures Send(s, userId).1.Some?
    ensures var r := Reply(Send(s, userId).0, Send(s, userId).1.value, replyId);
      && |r.messages| == |s.messages| + 2
      && IsPrefix(s.messages, r.messages)
      && r.messages[|s.messages|].sender == User
      && r.messages[|s.messages|].content == s.input
      && r.messages[|s.messages| + 1].sender == Assistant
      && Includes(r.messages[|s.messages| + 1].content, s.input)
      && !r.loading && r.input == ""
  {
    var (sent, timer) := Send(s, userId);
    var r := Reply(sent, timer.value, replyId);
    PrefixTransitive(s.messages, sent.messages, r.messages);
    assert r.messages[|s.messages|] == sent.messages[|s.messages|];
  }

  /** Sending "test" from the initial panel: two messages after the greeting. */
  lemma SendTestScenario(userId: string, replyId: string)
    ensures var s := EditInput(InitialState, "test");
      && Send(s, userId).1 == Some(PendingReply("test"))
      && |Send(s, userId).0.messages| == 2
      && |Reply(Send(s, userId).0, PendingReply("test"), replyId).messages| == 3
  {
    var s := EditInput(InitialState, "test");
    assert |s.messages| == 1;
    assert "test"[0] == 't';
    BlankIffAllWhitespace("test");
    assert !IsBlank(s.input);
  }

  /** A session: the panel's state plus the reply timers armed and not yet fired. */
  datatype Session = Session(chat: ChatState, timers: seq<PendingReply>)

  datatype Event =
    | Typed(text: string)
    | SendPressed(userId: string)
    | TimerFired(index: nat, replyId: string)
    | SuggestionClicked(suggestion: string)

  /** The event is a send the panel accepts: the send button and the Enter key are live and the text is not blank. */
  predicate AcceptsSend(s: Session, e: Event) {
    e.SendPressed? && !s.chat.loading && !IsBlank(s.chat.input)
  }

  /**
   One event. The compose field, and with it the Enter key and the send button,
   is disabled while a reply is loading, so typing and sending do nothing then;
   suggestion chips stay live. A timer index that names no armed timer changes
   nothing.
   */
  function Step(s: Session, e: Event): (r: Session)
    ensures IsPrefix(s.chat.messages, r.chat.messages)
    ensures |r.chat.messages| + |r.timers|
         == |s.chat.messages| + |s.timers| + (if AcceptsSend(s, e) then 2 else 0)
  {
    match e
    case Typed(text) => if s.chat.loading then s else s.(chat := EditInput(s.chat, text))
    case SuggestionClicked(text) => s.(chat := SuggestionClick(s.chat, text))
    case SendPressed(userId) =>
      if s.chat.loading then s
      else
        var sent := Send(s.chat, userId);
        if sent.1.Some? then Session(sent.0, s.timers + [sent.1.value]) else s
    case TimerFired(index, replyId) =>
      if index < |s.timers| then
        var rest := s.timers[..index] + s.timers[index + 1..];
        assert |rest| == |s.timers| - 1;
        Session(Reply(s.chat, s.timers[index], replyId), rest)
      else s
  }

  /** The events applied in order. */
  function Run(s: Session, events: seq<Event>): Session
    decreases |events|
  {
    if |events| == 0 then s else Run(Step(s, events[0]), events[1..])
  }

  /** How many of the events are accepted sends, counted along the run. */
  function AcceptedSends(s: Session, events: seq<Event>): nat
    decreases |events|
  {
    if |events| == 0 then 0
    else (if AcceptsSend(s, events[0]) then 1 else 0) + AcceptedSends(Step(s, events[0]), events[1..])
  }

  /**
   Over any run the log is append-only, and the log plus the armed timers grow
   by exactly two per accepted send: once every timer has fired, each accepted
   send has added exactly two messages.
   */
  lemma {:induction false} RunAppendsTwoPerSend(s: Session, events: seq<Event>)
    ensures IsPrefix(s.chat.messages, Run(s, events).chat.messages)
    ensures |Run(s, events).chat.messages| + |Run(s, events).timers|
         == |s.chat.messages| + |s.timers| + 2 * AcceptedSends(s, events)
    decreases |events|
  {
    if |events| > 0 {
      var next := Step(s, events[0]);
      RunAppendsTwoPerSend(next, events[1..]);
      PrefixTransitive(s.chat.messages, next.chat.messages, Run(next, events[1..]).chat.messages);
    }
  }

  /** The spinner is shown exactly while one reply is pending, and never more than one is. */
  predicate OneReplyAtATime(s: Session) {
    |s.timers| == (if s.chat.loading then 1 else 0)
  }

  /** Each event keeps at most one reply pending, the one the spinner stands for. */
  lemma StepKeepsOneReply(s: Session, e: Event)
    requires OneReplyAtATime(s)
    ensures OneReplyAtATime(Step(s, e))
  {
  }

  /**
   From a freshly mounted panel, at every point of any run the spinner shows
   exactly when one reply is pending: a second send cannot overtake the first.
   */
  lemma {:induction false} RunKeepsOneReply(s: Session, events: seq<Event>)
    requires OneReplyAtATime(s)
    ensures OneReplyAtATime(Run(s, events))
    decreases |events|
  {
    if |events| > 0 {
      StepKeepsOneReply(s, events[0]);
      RunKeepsOneReply(Step(s, events[0]), events[1..]);
    }
  }

  /** A freshly mounted panel has no reply pending. */
  lemma FreshPanelOneReplyAtATime(events: seq<Event>)
    ensures OneReplyAtATime(Run(Session(InitialState, []), events))
  {
    RunKeepsOneReply(Session(InitialState, []), events);
  }
}
