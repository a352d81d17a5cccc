# incident-resolve-assist: a Dafny model of the dashboard's interaction logic

The dashboard is a single-page UI for an IT-incident-resolution assistant. All of its
data is mock data, and all of its "AI" behaviour is a timer that returns canned text.
This project models the four parts of it that hold logic:

- **Incident list filtering** (module `Incidents`). A case-insensitive free-text search
  over title, description and incident number is combined with a status select and a
  priority select. Either select can stand at "all".
- **Resolution step selection** (module `StepSelection`). Clicking a step card toggles
  its id in the list of selected ids.
- **The assistant chat** (module `AssistantChat`). A blank send is ignored. A non-blank
  send appends the user's message, clears the compose field, shows a spinner and arms a
  reply timer. The reply timer appends one canned reply quoting the sent text.
- **The agent chat** (module `AgentChat`). Agent replies offer three pending actions.
  Executing an action marks it running at progress 0 and starts an interval. Each firing
  of the interval adds 20 until the action completes at 100 with a result, which clears
  the interval. A list of running action ids grows on execute and shrinks on completion.

Two support modules model the JavaScript operations the components rely on:

- `Strings` models `trim`, `toLowerCase` and `includes`.
- `Sequences` models subsequence, prefix, `Option` and the `filter(id => id !== x)`
  removal.

Each handler is a pure function from the component state to the next state.

- **Timers are events.** A send returns the `PendingReply` its timer will deliver, and
  `Reply` is that timer's callback. `Tick` is one firing of an action's interval.
- **Sessions.** `AssistantChat.Session` and `AgentChat.Session` hold the panel state plus
  its armed timers. `Step` applies one user or timer event and `Run` applies a sequence of
  them.
- **What a session adds.** A session also models what the rendered controls allow:
  - The compose field, its Enter key and the send button are disabled while a reply is
    loading.
  - An Execute button is rendered only for a pending action.
- **Clock values are parameters.** Message ids, which the components take from the clock,
  are passed in by the caller.

## Model

| member | source | states |
|---|---|---|
| Incidents.FilterIncidents | src/components/incidents/IncidentsList.tsx:75-84 | the shown list is a subsequence of the incident list; an incident is shown iff it is in the list and matches search, status and priority; each matching incident keeps its multiplicity and each other one is dropped |
| Incidents.VisibleCountBounded | src/components/incidents/IncidentsList.tsx:75-84 | the number of shown incidents is at most the total |
| Incidents.VisibleRespectSelects | src/components/incidents/IncidentsList.tsx:80-83 | every shown incident has the selected status and the selected priority unless that select is "all", and contains the search term |
| Incidents.InitialFiltersShowAll | src/components/incidents/IncidentsList.tsx:71-84 | with an empty search and both selects on "all" (the initial state) the whole list is shown, in order |
| Incidents.SearchIgnoresCase | src/components/incidents/IncidentsList.tsx:76-78 | two search terms that agree after lower-casing show the same incidents |
| Incidents.SearchCaseVariants | src/components/incidents/IncidentsList.tsx:76-78 | the ASCII lower-cased and the ASCII upper-cased search term show the same incidents as the typed one |
| Incidents.SearchNarrowing | src/components/incidents/IncidentsList.tsx:76-78 | a search term containing the current one (case-insensitively) shows a subsequence of what the current one shows |
| Incidents.ExtendingSearchNarrows | src/components/incidents/IncidentsList.tsx:76-78 | typing more characters after the search term never shows an incident that was hidden |
| Incidents.StatusFilterScenario | src/components/incidents/IncidentsList.tsx:80-84 | with the status select on "new", a new incident is shown and a resolved one is hidden |
| Incidents.VpnSearchScenario | src/components/incidents/IncidentsList.tsx:15-84 | over the four mock incidents, searching "vpn" shows exactly the VPN incident, and the printer incident is hidden |
| Strings.Includes | src/components/incidents/IncidentsList.tsx:76-78 | `includes` as a substring test: the empty string occurs in every text, a text occurs in itself, and nothing longer than the text occurs in it |
| Strings.BlankIffAllWhitespace | src/components/chat/ChatInterface.tsx:46 | `!input.trim()` holds exactly when the input is empty or whitespace only |
| Strings.Interpolate | src/components/chat/ChatInterface.tsx:64 | a one-slot template literal places the interpolated text, in full, right after the opening text and before the closing text |
| Strings.ToLowerIgnoresCase | src/components/incidents/IncidentsList.tsx:76-78 | changing the ASCII case of a text does not change its ASCII lower-cased form, and lower-casing is idempotent |
| StepSelection.InitialSelection | src/components/recommendations/RecommendationPanel.tsx:90 | a newly opened panel has no step selected |
| StepSelection.Toggle | src/components/recommendations/RecommendationPanel.tsx:92-98 | the toggled id's membership flips and every other id's is unchanged; an absent id is appended after the kept list; a present id is removed with every occurrence while the rest keep their order and multiplicity |
| Sequences.Without | src/components/recommendations/RecommendationPanel.tsx:95 | removing an id drops every occurrence of it, keeps every other element with its multiplicity and order, and changes nothing when the id is absent |
| Sequences.WithoutUnique | src/components/recommendations/RecommendationPanel.tsx:95 | the removal result is the only subsequence with exactly those element counts |
| StepSelection.ToggleTwiceRestores | src/components/recommendations/RecommendationPanel.tsx:92-98 | clicking an unselected step twice restores exactly the original list |
| StepSelection.DeselectKeepsOrder | src/components/recommendations/RecommendationPanel.tsx:95 | deselecting keeps any two other selected steps in their relative order |
| StepSelection.ToggleKeepsNoDuplicates | src/components/recommendations/RecommendationPanel.tsx:92-98 | toggling keeps a duplicate-free selection duplicate-free |
| AssistantChat.ReplyText | src/components/chat/ChatInterface.tsx:64 | the canned reply text contains the sent text |
| AssistantChat.EditInput | src/components/chat/ChatInterface.tsx:192 | typing sets the compose field and nothing else |
| AssistantChat.SuggestionClick | src/components/chat/ChatInterface.tsx:79-81 | a suggestion click only prefills the compose field; the log and the spinner are unchanged |
| AssistantChat.Send | src/components/chat/ChatInterface.tsx:45-58 | a blank input changes nothing and arms no timer; otherwise exactly one user message with the untrimmed input and the given id is appended, the field is cleared, the spinner shown and a reply armed for the sent text |
| AssistantChat.Reply | src/components/chat/ChatInterface.tsx:60-76 | exactly one assistant message is appended, quoting the sent text, with the three fixed suggestions and related incidents; the spinner is hidden and the field untouched |
| AssistantChat.SendThenReply | src/components/chat/ChatInterface.tsx:45-77 | a non-blank send and its reply grow the log by exactly two: the user's text, then a reply quoting it; earlier messages are kept |
| AssistantChat.SendTestScenario | src/components/chat/ChatInterface.tsx:45-77 | typing "test" and sending from the fresh panel gives two messages, and three after the reply |
| AssistantChat.Step | src/components/chat/ChatInterface.tsx:45-81 | every event keeps the log as a prefix; log plus armed timers grow by two for an accepted send and are otherwise unchanged in total |
| AssistantChat.RunAppendsTwoPerSend | src/components/chat/ChatInterface.tsx:45-77 | over any run the log is append-only and log plus armed timers grow by exactly two per accepted send |
| AssistantChat.StepKeepsOneReply | src/components/chat/ChatInterface.tsx:189-198 | with the compose field and send button disabled while loading, each event keeps the spinner shown exactly while one reply is pending |
| AssistantChat.RunKeepsOneReply | src/components/chat/ChatInterface.tsx:189-198 | the spinner-matches-one-pending-reply invariant holds over any run |
| AssistantChat.FreshPanelOneReplyAtATime | src/components/chat/ChatInterface.tsx:41-43 | from the freshly mounted panel no run ever has two replies pending |
| AgentChat.ReplyText | src/components/chat/EnhancedChatInterface.tsx:95 | the agent reply text contains the sent text |
| AgentChat.EditInput | src/components/chat/EnhancedChatInterface.tsx:405 | typing sets the compose field and nothing else |
| AgentChat.SuggestionClick | src/components/chat/EnhancedChatInterface.tsx:191-193 | a suggestion click only prefills the compose field; log, spinner and running ids are unchanged |
| AgentChat.Send | src/components/chat/EnhancedChatInterface.tsx:76-89 | a blank input changes nothing and arms no timer; otherwise one user message without actions, carrying the untrimmed input, is appended, the field cleared, the spinner shown and a reply armed for the sent text |
| AgentChat.Reply | src/components/chat/EnhancedChatInterface.tsx:91-141 | exactly one agent message is appended, quoting the sent text and offering three actions, all pending; the spinner is hidden; field and running ids are untouched |
| AgentChat.SendThenReply | src/components/chat/EnhancedChatInterface.tsx:76-142 | a non-blank send and its reply grow the log by exactly two, the second message offering the three pending actions and quoting the first |
| AgentChat.StartAction | src/components/chat/EnhancedChatInterface.tsx:150-154 | the action with the executed id becomes running at progress 0 with everything else kept; every other action is unchanged |
| AgentChat.StartInMessage | src/components/chat/EnhancedChatInterface.tsx:147-158 | only a message with the given id that has an action list is touched, and in it only its actions change, each as by StartAction |
| AgentChat.Execute | src/components/chat/EnhancedChatInterface.tsx:144-159 | the action id is appended to the running ids and every message is updated as by StartInMessage; field and spinner are unchanged |
| AgentChat.ExecuteLeavesOthers | src/components/chat/EnhancedChatInterface.tsx:147-158 | execute changes no message except action lists of targeted messages, and there no action with another id |
| AgentChat.ExecuteStartsTargets | src/components/chat/EnhancedChatInterface.tsx:144-159 | after execute every targeted action is running at 0 and its id is among the running ids |
| AgentChat.TickAction | src/components/chat/EnhancedChatInterface.tsx:166-182 | a running action with the ticked id gains 20, or completes at exactly 100 with the success result when that reaches 100; every other action, and every action not running, is unchanged |
| AgentChat.TickInMessage | src/components/chat/EnhancedChatInterface.tsx:163-186 | only a message with the given id that has an action list is touched, each action as by TickAction |
| AgentChat.Tick | src/components/chat/EnhancedChatInterface.tsx:162-188 | every message is updated as by TickInMessage; when some action completes, every occurrence of its id leaves the running ids and the rest keep their order and multiplicity; otherwise the running ids are unchanged |
| AgentChat.NotRunningIsStable | src/components/chat/EnhancedChatInterface.tsx:166-183 | any number of ticks leaves an action that is not running unchanged |
| AgentChat.RunningAfterFewTicks | src/components/chat/EnhancedChatInterface.tsx:166-180 | an action started at 0 is still running after k < 5 ticks, at progress 20k |
| AgentChat.CompletesOnFifthTick | src/components/chat/EnhancedChatInterface.tsx:162-188 | an action started at 0 is running after each of the first four ticks, completed at 100 with the result after the fifth, and unchanged by further ticks |
| AgentChat.ActionStepsPreserveWellFormed | src/components/chat/EnhancedChatInterface.tsx:150-180 | starting and ticking keep an action's progress in [0, 100], a running action with a progress and a completed one at 100 with a result |
| AgentChat.RunningHasProgress | src/components/chat/EnhancedChatInterface.tsx:169 | for a well-formed running action the `progress or 0` default is never used |
| AgentChat.SendPreservesWellFormed | src/components/chat/EnhancedChatInterface.tsx:76-89 | send keeps every action's progress within [0, 100] |
| AgentChat.ReplyPreservesWellFormed | src/components/chat/EnhancedChatInterface.tsx:91-141 | the reply, whose offered actions are pending without progress, keeps every action's progress within [0, 100] |
| AgentChat.ExecutePreservesWellFormed | src/components/chat/EnhancedChatInterface.tsx:144-159 | execute keeps every action's progress within [0, 100] |
| AgentChat.TickPreservesWellFormed | src/components/chat/EnhancedChatInterface.tsx:162-188 | a tick keeps every action's progress within [0, 100] |
| AgentChat.TickAdvancesTargets | src/components/chat/EnhancedChatInterface.tsx:166-180 | a tick below 100 advances every targeted running action by 20, completes nothing and leaves the running ids unchanged |
| AgentChat.TicksAdvanceTargets | src/components/chat/EnhancedChatInterface.tsx:162-180 | while progress stays below 100, n firings advance every targeted running action by 20n and leave the running ids unchanged |
| AgentChat.FinalTickCompletesTargets | src/components/chat/EnhancedChatInterface.tsx:168-178 | the tick that reaches 100 completes every targeted action at 100 and removes the id from the running ids |
| AgentChat.ExecuteThenFiveTicks | src/components/chat/EnhancedChatInterface.tsx:144-188 | execute then four ticks leave the targeted actions running at 80 with the id still running; the fifth tick completes them at 100 and removes the id |
| AgentChat.CompletionDropsEveryRunOfTheId | src/components/chat/EnhancedChatInterface.tsx:172 | running ids are kept by action id alone: a completion removes the id although the same id is still running in another message |
| AgentChat.Step | src/components/chat/EnhancedChatInterface.tsx:305-416 | with typing and sending disabled while loading and Execute offered only for a pending action, every user or timer event keeps every existing message except for its action list, never removes one, and keeps every action's progress within [0, 100] |
| AgentChat.RunInvariants | src/components/chat/EnhancedChatInterface.tsx:76-193 | over any run from a well-formed state, progress stays within [0, 100] and the log is only extended |
| AgentChat.FreshPanelStaysInBounds | src/components/chat/EnhancedChatInterface.tsx:54-75 | from the freshly mounted panel every run keeps every action's progress within [0, 100] |
| AgentChat.StepKeepsOneReply | src/components/chat/EnhancedChatInterface.tsx:402-411 | with the compose field and send button disabled while loading, each event keeps the spinner shown exactly while one reply is pending |
| AgentChat.RunKeepsOneReply | src/components/chat/EnhancedChatInterface.tsx:402-411 | the spinner-matches-one-pending-reply invariant holds over any run |

## Left out

- Rendering is not modelled: the JSX layout, icons, badges, tabs (`activeTab`) and the progress bar's width.
- Timer delays (2000 ms for a reply, 500 ms between ticks) are not modelled. Any interleaving of the timer events is allowed instead, which covers every real order.
- Timestamps are not modelled. Message ids taken from `Date.now()` are parameters of the events.
- Clipboard copying and the feedback text box of the recommendation panel are not modelled, because they hold no logic.
- The recommendation's mock content is not modelled.
- `Strings.ToLower` lower-cases the ASCII letters only. JavaScript's `toLowerCase` follows full Unicode case mapping, which no Dafny string operation provides.
- Incidents.SearchCaseVariants: the upper-case half holds only for the ASCII case mapping of the model. In JavaScript `"ß".toUpperCase()` is `"SS"`, so for a title containing "Straße" searching "ß" shows it and searching its upper-cased form "SS" hides it.
- Strings.ToLowerIgnoresCase: holds only for ASCII `Strings.ToUpper` and `Strings.ToLower`; full Unicode upper-casing can lengthen a text (`"ß"` becomes `"SS"`, `"ﬁ"` becomes `"FI"`), after which lower-casing does not give back the original lower-case form.
- JavaScript strings are sequences of UTF-16 code units, while a Dafny `string` is a sequence of Unicode scalar values, so a lone surrogate cannot be represented.
- Step ids, JavaScript numbers, are modelled as unbounded integers; the panel only compares them for equality.
- The optional message fields `suggestions`, `relatedIncidents` and `analysisResults` are modelled as lists, with an absent field as the empty list. Only `agentActions` keeps the difference between absent and empty, through `Option`, because the handlers test it.
- `Strings.BlankIffAllWhitespace` uses the ECMAScript whitespace and line-terminator code points as listed in the standard. It omits any later additions to the Unicode space-separator category.
- `AgentChat` never produces the `failed` action status. The source never sets it, so it is representable but unreachable.
- The `data` field of an analysis result is not modelled. The source never sets it.
- The step lifecycle (pending, selected, executing, completed) and the "execute all" mode described for the recommendation panel do not exist in RecommendationPanel.tsx. The model follows the code, where a click only toggles the id in the selection list.
- `runningAgents` is written by execute and completion but never read anywhere in the component. The model keeps it and proves what it holds.
- The pages, the sidebar, the stats cards and the incident card are not part of this model. They only render data and route clicks.
