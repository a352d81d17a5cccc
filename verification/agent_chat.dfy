/**
 The agent chat panel: the assistant chat extended with agent replies that
 offer automated actions. Each action runs through a small state machine:
 executing it marks it running at progress 0, and every firing of its interval
 timer adds 20 until the action completes at 100. A list of running action ids
 grows on execute and shrinks on completion.

 The reply timer and the per-action interval timer are modelled as events: a
 send arms a `PendingReply`, an execute starts an `Interval`, and `Reply` and
 `Tick` are their callbacks. Message ids, taken from the clock by the panel,
 are parameters.
 */
module AgentChat {
  import opened Sequences
  import opened Strings

  datatype Sender = User | Assistant | Agent

  datatype ActionStatus = Pending | Running | Completed | Failed

  datatype AgentAction = AgentAction(
    id: string,
    name: string,
    description: string,
    status: ActionStatus,
    progress: Option<int>,
    result: Option<string>)

  datatype AnalysisKind = Pattern | RootCause | Recommendation | SimilarIncidents

  datatype AnalysisResult = AnalysisResult(kind: AnalysisKind, title: string, description: string, confidence: int)

  datatype Message = Message(
    id: string,
    sender: Sender,
    content: string,
    suggestions: seq<string>,
    relatedIncidents: seq<string>,
    agentActions: Option<seq<AgentAction>>,
    analysisResults: seq<AnalysisResult>)

  /** The panel's state: the log, the compose field, the loading flag and the running action ids. */
  datatype ChatState = ChatState(messages: seq<Message>, input: string, loading: bool, runningAgents: seq<string>)

  /** An armed reply timer; its callback remembers the text that was sent. */
  datatype PendingReply = PendingReply(prompt: string)

  /** How much one interval firing adds to a running action's progress. */
  const ProgressStep: int := 20

  /** Progress at which an action completes, and the value it is then pinned to. */
  const FullProgress: int := 100

  const CompletedResult: string := "\U{2705} Action completed successfully"

  const Greeting: Message := Message(
    "1", Assistant,
    "Hello! I'm your enhanced AI assistant for incident resolution. I can now perform deep " +
    "incident analysis, pattern recognition, and execute automated resolution steps. " +
    "How can I help you today?",
    ["Analyze incident patterns in my queue",
     "Execute automated diagnostics on INC0012345",
     "Find root cause for recurring email issues",
     "Generate automated resolution plan"],
    [], None, [])

  /** A newly mounted panel: the greeting, an empty compose field, no spinner, nothing running. */
  const InitialState: ChatState := ChatState([Greeting], "", false, [])

  /** The three actions every agent reply offers, all pending. Their ids repeat across replies. */
  const OfferedActions: seq<AgentAction> := [
    AgentAction("1", "System Diagnostics", "Running automated system health checks", Pending, None, None),
    AgentAction("2", "Log Analysis", "Analyzing error logs for patterns", Pending, None, None),
    AgentAction("3", "Network Connectivity", "Testing network connectivity and latency", Pending, None, None)
  ]

  const ReplyAnalysis: seq<AnalysisResult> := [
    AnalysisResult(Pattern, "Recurring Pattern Detected", "Similar incidents occur every Tuesday at 2 PM", 85),
    AnalysisResult(RootCause, "Potential Root Cause", "Memory leak in email service causing periodic failures", 78)
  ]

  const ReplySuggestions: seq<string> :=
    ["Execute automated resolution", "Run detailed analysis", "Schedule preventive actions"]

  const ReplyIncidents: seq<string> := ["INC0012345", "INC0012340", "INC0012330"]

  /** The canned agent reply text around the quoted sent text. */
  const ReplyOpening: string := "I'm analyzing \""
  const ReplyClosing: string :=
    "\". I can perform automated diagnostics and execute resolution steps. Here's what I found:"

  /** The canned agent reply text, quoting the sent text. */
  function ReplyText(prompt: string): (text: string)
    ensures Includes(text, prompt)
  {
    Interpolate(ReplyOpening, prompt, ReplyClosing)
  }

  // ----- compose field -----

  /** The compose field's change handler. */
  function EditInput(s: ChatState, text: string): (r: ChatState)
    ensures r.input == text
    ensures r.messages == s.messages && r.loading == s.loading && r.runningAgents == s.runningAgents
  {
    s.(input := text)
  }

  /** Clicking a suggestion only prefills the compose field; nothing is sent. */
  function SuggestionClick(s: ChatState, suggestion: string): (r: ChatState)
    ensures r.input == suggestion
    ensures r.messages == s.messages && r.loading == s.loading && r.runningAgents == s.runningAgents
  {
    EditInput(s, suggestion)
  }

  // ----- send and reply -----

  /**
   The send handler. Blank input is ignored: nothing changes and no timer is
   armed. Otherwise one user message carrying the untrimmed input is appended,
   the field cleared, the spinner shown and a reply timer armed.
   */
  function Send(s: ChatState, userId: string): (r: (ChatState, Option<PendingReply>))
    ensures IsBlank(s.input) ==> r.0 == s && r.1 == None
    ensures !IsBlank(s.input) ==>
      && |r.0.messages| == |s.messages| + 1
      && IsPrefix(s.messages, r.0.messages)
      && r.0.messages[|s.messages|].sender == User
      && r.0.messages[|s.messages|].content == s.input
      && r.0.messages[|s.messages|].id == userId
      && r.0.messages[|s.messages|].agentActions == None
      && r.0.input == "" && r.0.loading && r.0.runningAgents == s.runningAgents
      && r.1 == Some(PendingReply(s.input))
  {
    if IsBlank(s.input) then (s, None)
    else
      var userMessage := Message(userId, User, s.input, [], [], None, []);
      (s.(messages := s.messages + [userMessage], input := "", loading := true), Some(PendingReply(s.input)))
  }

  /**
   The reply timer's callback: exactly one agent message is appended, quoting
   the sent text and offering three pending actions; the spinner is hidden.
   */
  function Reply(s: ChatState, pending: PendingReply, replyId: string): (r: ChatState)
    ensures |r.messages| == |s.messages| + 1 && IsPrefix(s.messages, r.messages)
    ensures r.messages[|s.messages|].sender == Agent
    ensures r.messages[|s.messages|].id == replyId
    ensures Includes(r.messages[|s.messages|].content, pending.prompt)
    ensures r.messages[|s.messages|].agentActions == Some(OfferedActions)
    ensures |OfferedActions| == 3 && forall a | a in OfferedActions :: a.status == Pending
    ensures !r.loading && r.input == s.input && r.runningAgents == s.runningAgents
  {
    var reply := Message(replyId, Agent, ReplyText(pending.prompt), ReplySuggestions, ReplyIncidents,
                         Some(OfferedActions), ReplyAnalysis);
    s.(messages := s.messages + [reply], loading := false)
  }

  /**
   A non-blank send followed by its reply grows the log by exactly two, a user
   message then an agent message with three pending actions; earlier messages
   are kept.
   */
  lemma SendThenReply(s: ChatState, userId: string, replyId: string)
    requires !IsBlank(s.input)
    ensures Send(s, userId).1.Some?
    ensures var r := Reply(Send(s, userId).0, Send(s, userId).1.value, replyId);
      && |r.messages| == |s.messages| + 2
      && IsPrefix(s.messages, r.messages)
      && r.messages[|s.messages|].sender == User
      && r.messages[|s.messages|].content == s.input
      && r.messages[|s.messages| + 1].sender == Agent
      && r.messages[|s.messages| + 1].agentActions == Some(OfferedActions)
      && Includes(r.messages[|s.messages| + 1].content, s.input)
      && !r.loading && r.input == "" && r.runningAgents == s.runningAgents
  {
    var (sent, timer) := Send(s, userId);
    var r := Reply(sent, timer.value, replyId);
    PrefixTransitive(s.messages, sent.messages, r.messages);
    assert r.messages[|s.messages|] == sent.messages[|s.messages|];
  }

  // ----- executing an action -----

  /** The actions of a message, none when it has no action list. */
  function ActionsOf(m: Message): seq<AgentAction> {
    if m.agentActions.Some? then m.agentActions.value else []
  }

  /** The handlers touch a message only when its id matches and it has an action list. */
  predicate Targets(m: Message, messageId: string) {
    m.id == messageId && m.agentActions.Some?
  }

  /** `after` is `before` with at most its action list replaced. */
  predicate SameExceptActions(before: Message, after: Message) {
    after == before.(agentActions := after.agentActions)
  }

  /** An action after executing `actionId`: the matching one runs from 0, every other is untouched. */
  function StartAction(a: AgentAction, actionId: string): (r: AgentAction)
    ensures a.id != actionId ==> r == a
    ensures a.id == actionId ==> r.status == Running && r.progress == Some(0)
    ensures r.(status := a.status, progress := a.progress) == a
  {
    if a.id == actionId then a.(status := Running, progress := Some(0)) else a
  }

  function StartInMessage(m: Message, messageId: string, actionId: string): (r: Message)
    ensures SameExceptActions(m, r)
    ensures !Targets(m, messageId) ==> r == m
    ensures Targets(m, messageId) ==> r.agentActions.Some? && |ActionsOf(r)| == |ActionsOf(m)|
    ensures Targets(m, messageId) ==>
      forall j | 0 <= j < |ActionsOf(m)| :: ActionsOf(r)[j] == StartAction(ActionsOf(m)[j], actionId)
  {
    if Targets(m, messageId) then
      var acts := m.agentActions.value;
      m.(agentActions := Some(seq(|acts|, j requires 0 <= j < |acts| => StartAction(acts[j], actionId))))
    else m
  }

  /**
   The execute handler: `actionId` is appended to the running ids, and in every
   message with id `messageId` each action with id `actionId` is set running at
   progress 0. Nothing else changes.
   */
  function Execute(s: ChatState, messageId: string, actionId: string): (r: ChatState)
    ensures r.runningAgents == s.runningAgents + [actionId]
    ensures |r.messages| == |s.messages|
    ensures forall i | 0 <= i < |s.messages| ::
      r.messages[i] == StartInMessage(s.messages[i], messageId, actionId)
    ensures r.input == s.input && r.loading == s.loading
  {
    var msgs := s.messages;
    s.(runningAgents := s.runningAgents + [actionId],
       messages := seq(|msgs|, i requires 0 <= i < |msgs| => StartInMessage(msgs[i], messageId, actionId)))
  }

  // ----- one interval firing -----

  /** The progress the tick reads, `action.progress || 0`. */
  function ProgressOf(a: AgentAction): int {
    a.progress.GetOr(0)
  }

  /** This tick completes the action: it is the ticked running action and reaches 100. */
  predicate CompletesOnTick(a: AgentAction, actionId: string) {
    a.id == actionId && a.status == Running && ProgressOf(a) + ProgressStep >= FullProgress
  }

  /**
   One tick of the interval for `actionId`: a running matching action gains 20;
   on reaching 100 it completes at exactly 100 with a result. Any other action,
   and any action not running, is left alone.
   */
  function TickAction(a: AgentAction, actionId: string): (r: AgentAction)
    ensures !(a.id == actionId && a.status == Running) ==> r == a
    ensures r.id == a.id && r.name == a.name && r.description == a.description
    ensures CompletesOnTick(a, actionId) ==>
      r.status == Completed && r.progress == Some(FullProgress) && r.result == Some(CompletedResult)
    ensures a.id == actionId && a.status == Running && !CompletesOnTick(a, actionId) ==>
      r.status == Running && r.progress == Some(ProgressOf(a) + ProgressStep) && r.result == a.result
  {
    if a.id == actionId && a.status == Running then
      var newProgress := ProgressOf(a) + ProgressStep;
      if newProgress >= FullProgress then
        a.(status := Completed, progress := Some(FullProgress), result := Some(CompletedResult))
      else a.(progress := Some(newProgress))
    else a
  }

  function TickInMessage(m: Message, messageId: string, actionId: string): (r: Message)
    ensures SameExceptActions(m, r)
    ensures !Targets(m, messageId) ==> r == m
    ensures Targets(m, messageId) ==> r.agentActions.Some? && |ActionsOf(r)| == |ActionsOf(m)|
    ensures Targets(m, messageId) ==>
      forall j | 0 <= j < |ActionsOf(m)| :: ActionsOf(r)[j] == TickAction(ActionsOf(m)[j], actionId)
  {
    if Targets(m, messageId) then
      var acts := m.agentActions.value;
      m.(agentActions := Some(seq(|acts|, j requires 0 <= j < |acts| => TickAction(acts[j], actionId))))
    else m
  }

  /** Some targeted action of `m` completes on this tick. */
  predicate MessageCompletes(m: Message, messageId: string, actionId: string) {
    Targets(m, messageId) && exists j | 0 <= j < |ActionsOf(m)| :: CompletesOnTick(ActionsOf(m)[j], actionId)
  }

  /** Some targeted action completes on this tick, which clears the interval. */
  predicate TickCompletes(s: ChatState, messageId: string, actionId: string) {
    exists i | 0 <= i < |s.messages| :: MessageCompletes(s.messages[i], messageId, actionId)
  }

  /**
   One firing of the interval started by executing `actionId` in `messageId`.
   When some action completes, every occurrence of `actionId` leaves the running
   ids; otherwise they are unchanged.
   */
  function Tick(s: ChatState, messageId: string, actionId: string): (r: ChatState)
    ensures |r.messages| == |s.messages|
    ensures forall i | 0 <= i < |s.messages| ::
      r.messages[i] == TickInMessage(s.messages[i], messageId, actionId)
    ensures TickCompletes(s, messageId, actionId) ==>
      actionId !in r.runningAgents && multiset(r.runningAgents) == multiset(s.runningAgents)[actionId := 0]
      && IsSubsequence(r.runningAgents, s.runningAgents)
    ensures !TickCompletes(s, messageId, actionId) ==> r.runningAgents == s.runningAgents
    ensures r.input == s.input && r.loading == s.loading
  {
    var msgs := s.messages;
    var running := if TickCompletes(s, messageId, actionId) then Without(s.runningAgents, actionId)
                   else s.runningAgents;
    s.(runningAgents := running,
       messages := seq(|msgs|, i requires 0 <= i < |msgs| => TickInMessage(msgs[i], messageId, actionId)))
  }

  // ----- the action state machine -----

  /** `n` consecutive ticks of one action. */
  function TickActionTimes(a: AgentAction, actionId: string, n: nat): AgentAction
    decreases n
  {
    if n == 0 then a else TickActionTimes(TickAction(a, actionId), actionId, n - 1)
  }

  /** A tick leaves an action that is not running exactly as it is, however often it fires. */
  lemma {:induction false} NotRunningIsStable(a: AgentAction, actionId: string, n: nat)
    requires a.status != Running
    ensures TickActionTimes(a, actionId, n) == a
    decreases n
  {
    if n > 0 {
      NotRunningIsStable(TickAction(a, actionId), actionId, n - 1);
    }
  }

  /** Started at 0, the action is still running after k < 5 ticks, at progress 20k. */
  lemma {:induction false} RunningAfterFewTicks(a: AgentAction, actionId: string, k: nat)
    requires a.id == actionId && a.status == Running && a.progress == Some(0)
    requires k < 5
    ensures TickActionTimes(a, actionId, k) == a.(progress := Some(ProgressStep * k))
    decreases k
  {
    if k > 0 {
      RunningAfterFewTicks(a, actionId, k - 1);
      TickActionTimesLast(a, actionId, k - 1);
    }
  }

  /** The last of n + 1 ticks. */
  lemma {:induction false} TickActionTimesLast(a: AgentAction, actionId: string, n: nat)
    ensures TickActionTimes(a, actionId, n + 1) == TickAction(TickActionTimes(a, actionId, n), actionId)
    decreases n
  {
    if n > 0 {
      TickActionTimesLast(TickAction(a, actionId), actionId, n - 1);
    }
  }

  /**
   Started at 0, an action completes on exactly the fifth tick, at progress 100
   with its result, and stays so under further ticks.
   */
  lemma CompletesOnFifthTick(a: AgentAction, actionId: string, extra: nat)
    requires a.id == actionId && a.status == Running && a.progress == Some(0)
    ensures forall k: nat | k < 5 :: TickActionTimes(a, actionId, k).status == Running
    ensures var done := TickActionTimes(a, actionId, 5);
      done.status == Completed && done.progress == Some(FullProgress) && done.result == Some(CompletedResult)
    ensures TickActionTimes(TickActionTimes(a, actionId, 5), actionId, extra) == TickActionTimes(a, actionId, 5)
  {
    forall k: nat | k < 5 ensures TickActionTimes(a, actionId, k).status == Running {
      RunningAfterFewTicks(a, actionId, k);
    }
    RunningAfterFewTicks(a, actionId, 4);
    TickActionTimesLast(a, actionId, 4);
    NotRunningIsStable(TickActionTimes(a, actionId, 5), actionId, extra);
  }

  // ----- progress stays within bounds -----

  /**
   The invariant of an action: progress, when present, lies in [0, 100]; a
   running action has a progress; a completed one sits at 100 with a result.
   */
  predicate ActionWellFormed(a: AgentAction) {
    && (a.progress.Some? ==> 0 <= a.progress.value <= FullProgress)
    && (a.status == Running ==> a.progress.Some?)
    && (a.status == Completed ==> a.progress == Some(FullProgress) && a.result.Some?)
  }

  predicate MessageWellFormed(m: Message) {
    forall j | 0 <= j < |ActionsOf(m)| :: ActionWellFormed(ActionsOf(m)[j])
  }

  predicate WellFormed(s: ChatState) {
    forall i | 0 <= i < |s.messages| :: MessageWellFormed(s.messages[i])
  }

  /** Starting and ticking keep an action well formed. */
  lemma ActionStepsPreserveWellFormed(a: AgentAction, actionId: string)
    requires ActionWellFormed(a)
    ensures ActionWellFormed(StartAction(a, actionId))
    ensures ActionWellFormed(TickAction(a, actionId))
  {
  }

  /** Under the invariant a running action always has a progress, so the `|| 0` default is never used. */
  lemma RunningHasProgress(a: AgentAction)
    requires ActionWellFormed(a) && a.status == Running
    ensures ProgressOf(a) == a.progress.value
  {
  }

  /** Appending messages without actions keeps the state well formed. */
  lemma AppendPreservesWellFormed(s: ChatState, r: ChatState)
    requires WellFormed(s) && IsPrefix(s.messages, r.messages)
    requires forall i | |s.messages| <= i < |r.messages| :: ActionsOf(r.messages[i]) == [] || ActionsOf(r.messages[i]) == OfferedActions
    ensures WellFormed(r)
  {
    forall i | 0 <= i < |r.messages| ensures MessageWellFormed(r.messages[i]) {
      if i < |s.messages| {
        assert r.messages[i] == r.messages[..|s.messages|][i];
      }
    }
  }

  /** Send keeps every action's progress within [0, 100]. */
  lemma SendPreservesWellFormed(s: ChatState, id: string)
    ensures WellFormed(s) ==> WellFormed(Send(s, id).0)
  {
    if WellFormed(s) && !IsBlank(s.input) {
      AppendPreservesWellFormed(s, Send(s, id).0);
    }
  }

  /** Reply keeps every action's progress within [0, 100]: its offered actions are pending, without progress. */
  lemma ReplyPreservesWellFormed(s: ChatState, pending: PendingReply, id: string)
    ensures WellFormed(s) ==> WellFormed(Reply(s, pending, id))
  {
    if WellFormed(s) {
      AppendPreservesWellFormed(s, Reply(s, pending, id));
    }
  }

  /** Execute keeps every action's progress within [0, 100]. */
  lemma ExecutePreservesWellFormed(s: ChatState, messageId: string, actionId: string)
    ensures WellFormed(s) ==> WellFormed(Execute(s, messageId, actionId))
  {
    if WellFormed(s) {
      var r := Execute(s, messageId, actionId);
      forall i | 0 <= i < |r.messages| ensures MessageWellFormed(r.messages[i]) {
        var m := s.messages[i];
        assert MessageWellFormed(m);
        forall j | 0 <= j < |ActionsOf(r.messages[i])| ensures ActionWellFormed(ActionsOf(r.messages[i])[j]) {
          ActionStepsPreserveWellFormed(ActionsOf(m)[j], actionId);
        }
      }
    }
  }

  /** A tick keeps every action's progress within [0, 100]. */
  lemma TickPreservesWellFormed(s: ChatState, messageId: string, actionId: string)
    ensures WellFormed(s) ==> WellFormed(Tick(s, messageId, actionId))
  {
    if WellFormed(s) {
      var r := Tick(s, messageId, actionId);
      forall i | 0 <= i < |r.messages| ensures MessageWellFormed(r.messages[i]) {
        var m := s.messages[i];
        assert MessageWellFormed(m);
        forall j | 0 <= j < |ActionsOf(r.messages[i])| ensures ActionWellFormed(ActionsOf(r.messages[i])[j]) {
          ActionStepsPreserveWellFormed(ActionsOf(m)[j], actionId);
        }
      }
    }
  }

  // ----- execute, then five ticks -----

  /** Every action the interval for (`messageId`, `actionId`) touches is running at `p`. */
  predicate TargetsRunningAt(s: ChatState, messageId: string, actionId: string, p: int) {
    forall i, j | 0 <= i < |s.messages| && Targets(s.messages[i], messageId) && 0 <= j < |ActionsOf(s.messages[i])| ::
      ActionsOf(s.messages[i])[j].id == actionId ==>
        ActionsOf(s.messages[i])[j].status == Running && ActionsOf(s.messages[i])[j].progress == Some(p)
  }

  /** Every action the interval touches is completed at 100. */
  predicate TargetsCompleted(s: ChatState, messageId: string, actionId: string) {
    forall i, j | 0 <= i < |s.messages| && Targets(s.messages[i], messageId) && 0 <= j < |ActionsOf(s.messages[i])| ::
      ActionsOf(s.messages[i])[j].id == actionId ==>
        ActionsOf(s.messages[i])[j].status == Completed && ActionsOf(s.messages[i])[j].progress == Some(FullProgress)
  }

  /** Some message with id `messageId` offers an action with id `actionId`. */
  predicate HasTarget(s: ChatState, messageId: string, actionId: string) {
    exists i, j | 0 <= i < |s.messages| && Targets(s.messages[i], messageId) && 0 <= j < |ActionsOf(s.messages[i])| ::
      ActionsOf(s.messages[i])[j].id == actionId
  }

  /** After execute every touched action runs at 0 and its id is among the running ids. */
  lemma ExecuteStartsTargets(s: ChatState, messageId: string, actionId: string)
    ensures TargetsRunningAt(Execute(s, messageId, actionId), messageId, actionId, 0)
    ensures actionId in Execute(s, messageId, actionId).runningAgents
    ensures HasTarget(s, messageId, actionId) ==> HasTarget(Execute(s, messageId, actionId), messageId, actionId)
  {
    var r := Execute(s, messageId, actionId);
    assert r.runningAgents[|s.runningAgents|] == actionId;
    if HasTarget(s, messageId, actionId) {
      var i, j :| 0 <= i < |s.messages| && Targets(s.messages[i], messageId) && 0 <= j < |ActionsOf(s.messages[i])|
                  && ActionsOf(s.messages[i])[j].id == actionId;
      assert ActionsOf(r.messages[i])[j].id == actionId;
    }
  }

  /**
   Execute touches nothing but the chosen action: every message keeps all but
   its action list, untargeted messages keep that too, and in a targeted
   message every action with another id is unchanged.
   */
  lemma ExecuteLeavesOthers(s: ChatState, messageId: string, actionId: string)
    ensures var r := Execute(s, messageId, actionId);
      && LogExtends(s.messages, r.messages) && |r.messages| == |s.messages|
      && (forall i | 0 <= i < |s.messages| && !Targets(s.messages[i], messageId) :: r.messages[i] == s.messages[i])
      && (forall i, j | 0 <= i < |s.messages| && Targets(s.messages[i], messageId) && 0 <= j < |ActionsOf(s.messages[i])| ::
            ActionsOf(s.messages[i])[j].id != actionId ==> ActionsOf(r.messages[i])[j] == ActionsOf(s.messages[i])[j])
  {
  }

  /** A tick below 100 advances every touched action by 20 and completes nothing. */
  lemma TickAdvancesTargets(s: ChatState, messageId: string, actionId: string, p: int)
    requires TargetsRunningAt(s, messageId, actionId, p) && p + ProgressStep < FullProgress
    ensures TargetsRunningAt(Tick(s, messageId, actionId), messageId, actionId, p + ProgressStep)
    ensures Tick(s, messageId, actionId).runningAgents == s.runningAgents
    ensures HasTarget(s, messageId, actionId) ==> HasTarget(Tick(s, messageId, actionId), messageId, actionId)
  {
    var r := Tick(s, messageId, actionId);
    assert !TickCompletes(s, messageId, actionId) by {
      forall i | 0 <= i < |s.messages| ensures !MessageCompletes(s.messages[i], messageId, actionId) {
        if Targets(s.messages[i], messageId) {
          forall j | 0 <= j < |ActionsOf(s.messages[i])| ensures !CompletesOnTick(ActionsOf(s.messages[i])[j], actionId) {
          }
        }
      }
    }
    if HasTarget(s, messageId, actionId) {
      var i, j :| 0 <= i < |s.messages| && Targets(s.messages[i], messageId) && 0 <= j < |ActionsOf(s.messages[i])|
                  && ActionsOf(s.messages[i])[j].id == actionId;
      assert ActionsOf(r.messages[i])[j].id == actionId;
    }
  }

  /** The tick that reaches 100 completes every touched action and drops the id from the running ids. */
  lemma FinalTickCompletesTargets(s: ChatState, messageId: string, actionId: string, p: int)
    requires TargetsRunningAt(s, messageId, actionId, p) && p + ProgressStep >= FullProgress
    requires HasTarget(s, messageId, actionId)
    ensures TargetsCompleted(Tick(s, messageId, actionId), messageId, actionId)
    ensures actionId !in Tick(s, messageId, actionId).runningAgents
  {
    var i, j :| 0 <= i < |s.messages| && Targets(s.messages[i], messageId) && 0 <= j < |ActionsOf(s.messages[i])|
                && ActionsOf(s.messages[i])[j].id == actionId;
    assert CompletesOnTick(ActionsOf(s.messages[i])[j], actionId);
    assert MessageCompletes(s.messages[i], messageId, actionId);
  }

  /** `n` consecutive firings of the interval for (`messageId`, `actionId`). */
  function Ticks(s: ChatState, messageId: string, actionId: string, n: nat): ChatState
    decreases n
  {
    if n == 0 then s else Tick(Ticks(s, messageId, actionId, n - 1), messageId, actionId)
  }

  /**
   While progress stays below 100, `n` firings advance every touched action
   by 20 each and leave the running ids as they were.
   */
  lemma {:induction false} TicksAdvanceTargets(s: ChatState, messageId: string, actionId: string, p: int, n: nat)
    requires TargetsRunningAt(s, messageId, actionId, p) && p + 20 * n < 100
    requires HasTarget(s, messageId, actionId)
    ensures TargetsRunningAt(Ticks(s, messageId, actionId, n), messageId, actionId, p + 20 * n)
    ensures Ticks(s, messageId, actionId, n).runningAgents == s.runningAgents
    ensures HasTarget(Ticks(s, messageId, actionId, n), messageId, actionId)
    decreases n
  {
    if n > 0 {
      var before := Ticks(s, messageId, actionId, n - 1);
      TicksAdvanceTargets(s, messageId, actionId, p, n - 1);
      assert p + 20 * (n - 1) + ProgressStep == p + 20 * n;
      TickAdvancesTargets(before, messageId, actionId, p + 20 * (n - 1));
      assert Ticks(s, messageId, actionId, n) == Tick(before, messageId, actionId);
    }
  }

  /**
   Executing an offered action and letting its interval fire five times
   completes it at progress 100 and removes its id from the running ids; the
   four earlier firings leave the running ids as execute set them.
   */
  lemma ExecuteThenFiveTicks(s: ChatState, messageId: string, actionId: string)
    requires HasTarget(s, messageId, actionId)
    ensures var s4 := Ticks(Execute(s, messageId, actionId), messageId, actionId, 4);
      && actionId in s4.runningAgents
      && TargetsRunningAt(s4, messageId, actionId, 80)
      && TargetsCompleted(Tick(s4, messageId, actionId), messageId, actionId)
      && actionId !in Tick(s4, messageId, actionId).runningAgents
  {
    var s0 := Execute(s, messageId, actionId);
    ExecuteStartsTargets(s, messageId, actionId);
    TicksAdvanceTargets(s0, messageId, actionId, 0, 4);
    FinalTickCompletesTargets(Ticks(s0, messageId, actionId, 4), messageId, actionId, 80);
  }

  // ----- sessions: the panel plus its armed timers -----

  /** A started interval: the callback ticks `actionId` in `messageId`. */
  datatype Interval = Interval(messageId: string, actionId: string)

  datatype Session = Session(chat: ChatState, replyTimers: seq<PendingReply>, intervals: seq<Interval>)

  datatype Event =
    | Typed(text: string)
    | SuggestionClicked(suggestion: string)
    | SendPressed(userId: string)
    | ReplyTimerFired(index: nat, replyId: string)
    | ExecuteClicked(messageId: string, actionId: string)
    | IntervalFired(index: nat)

  /** The remove-at-index of a fired timer. */
  function RemoveAt<T>(s: seq<T>, index: nat): (r: seq<T>)
    requires index < |s|
    ensures |r| == |s| - 1
    ensures forall k | 0 <= k < |r| :: r[k] == (if k < index then s[k] else s[k + 1])
  {
    s[..index] + s[index + 1..]
  }

  /**
   An Execute button is shown for (`messageId`, `actionId`): some message with
   that id offers an action with that id that is still pending.
   */
  predicate ExecuteOffered(s: ChatState, messageId: string, actionId: string) {
    exists i, j | 0 <= i < |s.messages| && Targets(s.messages[i], messageId) && 0 <= j < |ActionsOf(s.messages[i])| ::
      ActionsOf(s.messages[i])[j].id == actionId && ActionsOf(s.messages[i])[j].status == Pending
  }

  /**
   One event. The compose field, its Enter key and the send button are
   disabled while a reply is loading, so typing and sending do nothing then;
   suggestion chips stay live. Execute can only be clicked where a button is
   shown. A timer index that names no armed timer changes nothing. A tick that
   completes an action clears its interval; one that completes nothing leaves
   it armed.
   */
  function Step(s: Session, e: Event): (r: Session)
    ensures LogExtends(s.chat.messages, r.chat.messages)
    ensures WellFormed(s.chat) ==> WellFormed(r.chat)
  {
    match e
    case Typed(text) =>
      var r := if s.chat.loading then s else s.(chat := EditInput(s.chat, text));
      AppendExtendsLog(s.chat.messages, r.chat.messages);
      r
    case SuggestionClicked(text) =>
      var r := s.(chat := SuggestionClick(s.chat, text));
      AppendExtendsLog(s.chat.messages, r.chat.messages);
      r
    case SendPressed(userId) =>
      var sent := Send(s.chat, userId);
      var r := if !s.chat.loading && sent.1.Some? then s.(chat := sent.0, replyTimers := s.replyTimers + [sent.1.value])
               else s;
      SendPreservesWellFormed(s.chat, userId);
      AppendExtendsLog(s.chat.messages, r.chat.messages);
      r
    case ReplyTimerFired(index, replyId) =>
      if index < |s.replyTimers| then
        var chat := Reply(s.chat, s.replyTimers[index], replyId);
        ReplyPreservesWellFormed(s.chat, s.replyTimers[index], replyId);
        AppendExtendsLog(s.chat.messages, chat.messages);
        s.(chat := chat, replyTimers := RemoveAt(s.replyTimers, index))
      else
        AppendExtendsLog(s.chat.messages, s.chat.messages);
        s
    case ExecuteClicked(messageId, actionId) =>
      if ExecuteOffered(s.chat, messageId, actionId) then
        ExecutePreservesWellFormed(s.chat, messageId, actionId);
        ExecuteLeavesOthers(s.chat, messageId, actionId);
        s.(chat := Execute(s.chat, messageId, actionId), intervals := s.intervals + [Interval(messageId, actionId)])
      else
        AppendExtendsLog(s.chat.messages, s.chat.messages);
        s
    case IntervalFired(index) =>
      if index < |s.intervals| then
        var iv := s.intervals[index];
        var cleared := TickCompletes(s.chat, iv.messageId, iv.actionId);
        TickPreservesWellFormed(s.chat, iv.messageId, iv.actionId);
        s.(chat := Tick(s.chat, iv.messageId, iv.actionId),
           intervals := if cleared then RemoveAt(s.intervals, index) else s.intervals)
      else
        AppendExtendsLog(s.chat.messages, s.chat.messages);
        s
  }


  /** The events applied in order. */
  function Run(s: Session, events: seq<Event>): Session
    decreases |events|
  {
    if |events| == 0 then s else Run(Step(s, events[0]), events[1..])
  }

  /**
   The log never loses a message and never rewrites one: only the action lists
   of existing messages change.
   */
  predicate LogExtends(before: seq<Message>, after: seq<Message>) {
    |before| <= |after| && forall i | 0 <= i < |before| :: SameExceptActions(before[i], after[i])
  }

  /** Appending to the log extends it. */
  lemma AppendExtendsLog(a: seq<Message>, b: seq<Message>)
    requires IsPrefix(a, b)
    ensures LogExtends(a, b)
  {
    forall i | 0 <= i < |a| ensures SameExceptActions(a[i], b[i]) {
      assert b[i] == b[..|a|][i];
    }
  }

  /** Being an extension of the log is transitive. */
  lemma LogExtendsTransitive(a: seq<Message>, b: seq<Message>, c: seq<Message>)
    requires LogExtends(a, b) && LogExtends(b, c)
    ensures LogExtends(a, c)
  {
    forall i | 0 <= i < |a| ensures SameExceptActions(a[i], c[i]) {
      assert SameExceptActions(a[i], b[i]) && SameExceptActions(b[i], c[i]);
    }
  }

  /**
   From any well-formed session, any run of events keeps every action's
   progress within [0, 100] and only ever extends the log.
   */
  lemma {:induction false} RunInvariants(s: Session, events: seq<Event>)
    requires WellFormed(s.chat)
    ensures WellFormed(Run(s, events).chat)
    ensures LogExtends(s.chat.messages, Run(s, events).chat.messages)
    decreases |events|
  {
    if |events| == 0 {
      assert LogExtends(s.chat.messages, s.chat.messages);
    } else {
      var next := Step(s, events[0]);
      RunInvariants(next, events[1..]);
      LogExtendsTransitive(s.chat.messages, next.chat.messages, Run(next, events[1..]).chat.messages);
    }
  }

  /** The panel starts well formed, so the bounds hold after any run from a fresh panel. */
  lemma FreshPanelStaysInBounds(events: seq<Event>)
    ensures WellFormed(Run(Session(InitialState, [], []), events).chat)
  {
    assert ActionsOf(Greeting) == [];
    RunInvariants(Session(InitialState, [], []), events);
  }

  /** The spinner is shown exactly while one reply is pending, and never more than one is. */
  predicate OneReplyAtATime(s: Session) {
    |s.replyTimers| == (if s.chat.loading then 1 else 0)
  }

  /** Each event keeps at most one reply pending, the one the spinner stands for. */
  lemma StepKeepsOneReply(s: Session, e: Event)
    requires OneReplyAtATime(s)
    ensures OneReplyAtATime(Step(s, e))
  {
  }

  /** Any run from a state with the spinner matching the pending replies keeps them matched. */
  lemma {:induction false} RunKeepsOneReply(s: Session, events: seq<Event>)
    requires OneReplyAtATime(s)
    ensures OneReplyAtATime(Run(s, events))
    decreases |events|
  {
    if |events| > 0 {
      StepKeepsOneReply(s, events[0]);
      RunKeepsOneReply(Step(s, events[0]), events[1..]);
    }
  }

  /**
   The running ids are kept by action id alone, and every reply offers the
   same ids. When an action completes, the id leaves the running ids even
   though an action with that id in another message is still running.
   */
  lemma CompletionDropsEveryRunOfTheId(s: ChatState, messageId: string, actionId: string, k: int, j: int)
    requires TargetsRunningAt(s, messageId, actionId, 80) && HasTarget(s, messageId, actionId)
    requires 0 <= k < |s.messages| && s.messages[k].id != messageId
    requires 0 <= j < |ActionsOf(s.messages[k])| && ActionsOf(s.messages[k])[j].id == actionId
    requires ActionsOf(s.messages[k])[j].status == Running
    ensures actionId !in Tick(s, messageId, actionId).runningAgents
    ensures ActionsOf(Tick(s, messageId, actionId).messages[k])[j].status == Running
  {
    FinalTickCompletesTargets(s, messageId, actionId, 80);
  }
}
