# fiat-agent: verified model of the deterministic core

A Dafny 4.11 model of the parts of fiat-agent that decide things without a
language model, with proofs of what they promise. `dafny verify dfyconfig.toml`
checks the whole project.

| component | files | what is proved |
|---|---|---|
| Event stream with resume | `EventLog`, `EventStreamSpec`, `EventDelivery`, `EventBus`, `EventStream`, `EventReaders` | The bounded buffer refines an unbounded log; for every interleaving of publish, open, deliver, drop and resume, each reader receives its session's events, in order, once, and all of them, across any number of reconnects, exactly when no reconnect came too late for an event; a reader served until nothing is pending has everything published since it opened. The objects do what the protocol says for any number of readers and any schedule. |
| Append-only session tree | `SessionTree`, `SessionEffects`, `SessionStore` | Every reachable state is a forest whose paths never change; exactly when a session is one tree; rollback forks without losing anything; one active branch per session; the guarded walk is exact; what each operation does, written out, and where it leaves the tip. |
| Amounts and card numbers | `Amounts`, `AmountSoundness`, `AmountRoundTrip`, `AmountSigns`, `Luhn` | Rendering then parsing is the identity in US style, and in EU style exactly on the stated conditions, digit for digit and as a number; where a sign is dropped and what is read where it is not; nothing but digits and punctuation is ever accepted, and then as the number its digits make; the card check is Luhn's (Annex B of ISO/IEC 7812-1) and catches the typing errors it is for, exactly, on spaced card numbers. |
| Agent loop with gates | `Policy`, `AgentSpec`, `AgentOutcomes`, `AgentSafety`, `AgentLoop` | For every model and every run, exactly the permitted handlers of the answered calls run, permitted in terms of the declared policies, and each outcome is reported as what it was; the conversation stays well formed, the books balance, and a batch halts exactly when it must. |
| Approvals and submission | `ApprovalSpec`, `ApprovalHistory`, `ApprovalService`, `ApprovalFlow` | The operations since a request decide it, exactly; decisions are final, a run held for an L5 tool takes two people after its request was filed, and nothing is submitted without an approved record. |
| Table pipelines | `Tables`, `Cashback`, `CashbackCells`, `CashbackLaws`, `Reconcile`, `ReconcileIssues`, `LogisticsStatus`, `Logistics`, `LogisticsCells`, `Compaction`, `SummaryMeaning` | Exactness, conservation, order independence and merge laws; what each record, issue and summary shows, read off the cells and events themselves. |

Each stateful component comes twice: a specification on values (`...Spec`,
`SessionTree`, `ParseOf`, `Combined`), about which the theorems are proved over
all runs, and the class or loop in the program's own form, whose every method is
proved to perform exactly the specified step. `Common` holds the shared
datatypes.

## Where the code and its documentation differ

The model follows the code.

- `compact_events` documents "approved > rejected", but ranks `rejected` highest
  (`fiat_agent/context/compaction.py:84`); the two orders agree on a window exactly
  when it does not report both (`DocumentedOrderIff`).
- `should_compact` documents that an empty window is due; the code returns false
  (`fiat_agent/context/compaction.py:46`).
- `parse_amount` drops a sign that comes first, spaces aside, or right after the opening
  parenthesis (`fiat_agent/tool_gateway/cashback_tools.py:165`). A sign further in, after
  a currency symbol say, is kept: US figures are then read with it (`SignedUSReads`), EU
  figures exactly when they show both a fraction and groups or neither
  (`SignedEUReadsIff`), because behind a sign a lone comma is never a decimal comma
  (`fiat_agent/tool_gateway/cashback_tools.py:183`).
- EU figures are read back unless the comma or the dots are ambiguous:
  `ParseInvertsEUIff` gives the exact condition for the same digits and scale,
  `ParseKeepsEUNumberIff` for the same number, which zero amounts also meet.
- `can_execute` tests only the actor's first role, and may blame the environment
  for it (`fiat_agent/auth/policy.py:74`); `EnvironmentWronglyBlamedIff` says when.
- An append to a session that was never created is accepted when the database does
  not enforce foreign keys (SQLite's default), and leaves the session without a tip,
  so that a session need not be one tree. It is one exactly when at most one append
  to it named no parent while it had no tip (`SessionIsOneTreeIff`); creating the
  session first is enough (`SessionIsOneTree`), and
  `AppendsBeforeCreateMakeTwoRoots` is a run in which it fails.
- The address placeholder branch of `parse_rows` can never be taken: every
  placeholder is already rejected as too short (`PlaceholdersAreTooShort`).
- Events of the empty session id are replayed but never delivered live
  (`fiat_agent/events/stream.py:67`); `LiveIffSessionNotEmpty` states it exactly, and
  readers of the empty session are excluded from the stream theorems.

## Model

| member | source | states |
|---|---|---|
| EventLog.WindowAfterPush | fiat_agent/events/stream.py:64-66 | pushing onto the bounded buffer turns the log's window into the longer log's window |
| EventLog.ReplayIsSuffix | fiat_agent/events/stream.py:73-80 | filtering the buffer by a cursor gives the log's suffix above the larger of cursor and eviction horizon |
| EventLog.SinceExact | fiat_agent/events/stream.py:73-80 | membership in what a session is due: exactly the log's events of that session numbered above the cursor |
| EventStreamSpec.BufferRefinesLog | fiat_agent/events/stream.py:58-80 | in every reachable state the buffer is the last min(maxlen, seq) events, numbered contiguously up to seq, and a replay is the log's suffix above the cursor and the eviction horizon |
| EventStreamSpec.NextYieldsHead | fiat_agent/events/stream.py:102-109 | resuming the generator yields exactly the first event the reader is owed, leaves the rest owed, and waits only when nothing is owed |
| EventStreamSpec.ConnectStartsComplete | fiat_agent/events/stream.py:99-104 | subscribing before the snapshot makes the replay everything the session is due at that moment, none of it above the snapshot |
| EventStreamSpec.PublishKeepsClient | fiat_agent/events/stream.py:58-70 | a publish extends what a reader is due and what it is still owed by the same event, or neither |
| EventStreamSpec.ResumeKeepsClient | fiat_agent/events/stream.py:95-111 | a reader that reconnects at the last number it received recovers from the buffer what its dropped queue still held |
| EventStreamSpec.StepKeepsInv | fiat_agent/events/stream.py:58-111 | every publish, open, delivery, drop and resume keeps the hub's and every reader's invariant |
| EventStreamSpec.StreamIsExact | fiat_agent/events/stream.py:95-111 | for every interleaving, what a connection yielded is strictly increasing and a prefix of exactly the session's events above the cursor not evicted at opening, and what it still owes completes them |
| EventStreamSpec.ResumedStreamIsCompleteIff | fiat_agent/events/stream.py:73-111 | over any number of drops and resumes, what was received is always in order, without repeats and due; with what is pending it is everything one uninterrupted stream yields exactly when no resume missed an event, that is, no session event above the origin and the resume point had left the buffer |
| EventStreamSpec.ResumedStreamIsUninterrupted | fiat_agent/events/stream.py:73-111 | then everything received, also while dropped, is a prefix of what the uninterrupted stream yields |
| EventStreamSpec.CoveredResumesSuffice | fiat_agent/events/stream.py:73-80 | no resume misses anything if at each the oldest buffered number is at most the cursor plus one |
| EventStreamSpec.MissedAfterResume | fiat_agent/events/stream.py:73-80 | after a resume something is missing exactly if something was before or this resume came too late |
| EventStreamSpec.ReadersAgree | fiat_agent/events/stream.py:95-111 | two readers from the same starting point have received the same sequence, up to how far each has got |
| EventStreamSpec.ResumeLosslessIff | fiat_agent/events/stream.py:73-80 | a resume loses nothing exactly when no event of the session lies between the cursor and the eviction horizon; a covered cursor suffices |
| EventStreamSpec.EmptySessionIsNeverLive | fiat_agent/events/stream.py:67-69 | an event of the empty session reaches no live queue, yet a replay shows it |
| EventStreamSpec.LiveIffSessionNotEmpty | fiat_agent/events/stream.py:67-69 | an event of the reader's session keeps what it yielded and is owed complete exactly when the session id is not empty |
| EventDelivery.LogIsPublished | fiat_agent/events/stream.py:58-70 | over every run the log is exactly the events published, in order, whatever readers do |
| EventDelivery.OpenServes | fiat_agent/events/stream.py:95-104 | opening serves the asked session from the asked cursor, or from the oldest event still buffered if that is later, with nothing received yet |
| EventDelivery.DeliverMoves | fiat_agent/events/stream.py:102-109 | each delivery hands over the first pending event, or nothing when none is pending |
| EventDelivery.DrainHandsOver | fiat_agent/events/stream.py:102-109 | as many deliveries as events are pending hand all of them over, in order |
| EventDelivery.DrainedReaderHasAll | fiat_agent/events/stream.py:95-111 | a reader that opens a session at a cursor, is dropped and resumed without missing anything, and is served until nothing is pending, has received exactly the session's published events above where it started |
| EventDelivery.ReceivedOnlyGrows | fiat_agent/events/stream.py:95-111 | over every run, what a reader received is never taken back or reordered |
| EventBus.EventBus.SubscribersFor | fiat_agent/events/bus.py:62-76 | each handler registered for all events, the topic or the kind, once, none other: those for all first, then the topic's, then the kind's, each list in order of registration |
| EventBus.EventBus.Subscribe | fiat_agent/events/bus.py:43-46 | registers for all events, topics untouched |
| EventBus.EventBus.SubscribeTopic | fiat_agent/events/bus.py:48-51 | registers on one topic, everything else untouched |
| EventBus.EventBus.Unsubscribe | fiat_agent/events/bus.py:53-59 | removes one registration from each list that has one |
| EventBus.RemovesFirst | fiat_agent/events/bus.py:53-59 | unsubscribing takes off the first registration and nothing else, or nothing at all |
| EventStream.Publish | fiat_agent/events/bus.py:78-92 | a publish gives the manager's hub exactly one number however often it is registered, and none if it is not |
| EventStream.EventStreamManager.Start | fiat_agent/events/stream.py:48-52 | the first start registers one handler, later ones none |
| EventStream.EventStreamManager.BufferEvent | fiat_agent/events/stream.py:58-70 | performs the hub's publish: number, bounded buffer, and fan-out to the session's queues only |
| EventStream.EventStreamManager.FanOut | fiat_agent/events/stream.py:68-69 | every queue of the list gets the event once |
| EventStream.EventStreamManager.Subscribe | fiat_agent/events/stream.py:83-86 | performs the hub's subscribe with a fresh empty queue |
| EventStream.EventStreamManager.Unsubscribe | fiat_agent/events/stream.py:88-93 | removes exactly that queue and an emptied list, or changes nothing |
| EventStream.Generator.constructor | fiat_agent/events/stream.py:99-102 | performs the reader's connect: subscribe, snapshot and replay list in one step; only its own queue is added |
| EventStream.Generator.Next | fiat_agent/events/stream.py:101-109 | performs the reader's delivery: the replay loop's filter, then the live loop's |
| EventStream.Generator.Close | fiat_agent/events/stream.py:110-111 | performs the reader's drop; only its own queue is removed |
| EventReaders.Turn | fiat_agent/events/stream.py:58-111 | with any number of readers, one publish, open, delivery, drop or resume by one of them performs exactly that protocol step and leaves every other reader's connection in order |
| EventReaders.Serve | fiat_agent/events/stream.py:58-111 | any schedule of them, with generators opened, advanced, closed and reopened in any order, is a run of the protocol, each publish going through the bus |
| EventReaders.StartAndServe | fiat_agent/events/stream.py:48-70 | after any number of starts, on a bus with any other registrations, each bus publish of a schedule is one publish of the protocol |
| EventReaders.PutBack | fiat_agent/events/stream.py:83-93 | whatever one reader's connection becomes, the others stay connected and represent the same readers |
| SessionTree.StepKeepsInv | fiat_agent/sessions/store.py:284-325 | every operation keeps ids unique, numbers growing per session, parents earlier rows of the same session, tips existing, and only the newest branch active |
| SessionTree.PathIsChain | fiat_agent/sessions/store.py:339-361 | a path starts at a parentless event, is linked by parents, strictly grows in seq, stays in the session and repeats nothing |
| SessionTree.PathFits | fiat_agent/sessions/store.py:352-359 | a path is no longer than its session, so the walk's guard never runs out on it |
| SessionTree.ReachablePathsAreChains | fiat_agent/sessions/store.py:284-361 | in every reachable state every event's path is such a chain, ends at the event and fits within the session |
| SessionTree.PathStable | fiat_agent/sessions/store.py:307-318 | inserting a row changes no existing event's path |
| SessionTree.NewPath | fiat_agent/sessions/store.py:302-318 | a new event's path is its parent's path followed by itself |
| SessionTree.HistoryIsStable | fiat_agent/sessions/store.py:252-260 | whatever operations follow, every existing row stays in place with the same path |
| SessionTree.DefaultAppendsExtendTip | fiat_agent/sessions/store.py:297-304 | while a session is only appended to by default, the active path only grows at its end, whatever other sessions do |
| SessionTree.RollbackForks | fiat_agent/sessions/branches.py:30-44 | after a rollback to e and any default appends, path(e) is a prefix of the active path and the abandoned events are all still there |
| SessionTree.SessionIsOneTreeIff | fiat_agent/sessions/store.py:297-318 | in every reachable state all paths of a session start at one event exactly when at most one append to it named no parent while it had no tip |
| SessionTree.AppendKeepsOneRootIff | fiat_agent/sessions/store.py:302-304 | a successful append keeps its session at one root exactly when a parent is named, the session has a tip, or it has no root yet |
| SessionTree.RunCountsRoots | fiat_agent/sessions/store.py:302-318 | over any run a session gains one root for each append that named no parent while it had no tip, and no other |
| SessionTree.SessionIsOneTree | fiat_agent/sessions/store.py:297-304 | a session created before its first append is one tree |
| SessionTree.AppendsBeforeCreateMakeTwoRoots | fiat_agent/sessions/store.py:302-318 | a concrete run in which two appends to an uncreated session leave two roots |
| SessionTree.AtMostOneActiveBranch | fiat_agent/sessions/branches.py:64-85 | in every reachable state only the branch created last can be a session's active one |
| SessionTree.BranchStaysOnPath | fiat_agent/sessions/branches.py:46-89 | after branching off a base, the active path keeps running through it along the base's own path |
| SessionEffects.AppendDoes | fiat_agent/sessions/store.py:297-318 | an append inserts one row with the given id, type and content, under the named parent or else the session's tip, moves the tip to it and touches nothing else; it fails exactly when the id is taken |
| SessionEffects.AppendForksAtParent | fiat_agent/sessions/store.py:302-318 | an append that names a parent hangs there wherever the tip is: its path is the parent's path and itself, and it becomes the tip |
| SessionEffects.AppendContinuesTip | fiat_agent/sessions/store.py:302-318 | an append that names none extends the active path by itself |
| SessionEffects.RollbackDoes | fiat_agent/sessions/branches.py:30-44 | a rollback moves the tip to an event of the session and changes nothing else; each error exactly |
| SessionEffects.BranchDoes | fiat_agent/sessions/branches.py:46-89 | branching adds one active branch on the base, deactivates exactly the session's others and moves the tip; each error exactly |
| SessionEffects.CreateDoes | fiat_agent/sessions/store.py:265-282 | creating adds one session without a tip, or fails on a name taken |
| SessionEffects.TipIsLastMove | fiat_agent/sessions/store.py:297-318 | over every run, a session's tip is where its last successful append, rollback or branching put it |
| SessionEffects.NumbersAreContiguous | fiat_agent/sessions/store.py:320-325 | in every reachable state each session's rows are numbered 1, 2, 3 and so on, in the order they were added |
| SessionStore.Walk | fiat_agent/sessions/store.py:350-361 | on any pointers the guarded walk returns at most n+1 linked events; if a whole chain from a root exists, it returns exactly that |
| SessionStore.PathIsWholeChain | fiat_agent/sessions/store.py:344-352 | in every reachable state the path is such a chain and fits within the guard |
| SessionStore.SortedIfGrown | fiat_agent/sessions/store.py:331-335 | ordering by seq changes nothing when numbers grew as rows were added |
| SessionStore.KeyById | fiat_agent/sessions/store.py:344-346 | the dictionary keeps every row, under its id, and nothing else |
| SessionStore.SessionDatabase.CreateSession | fiat_agent/sessions/store.py:265-282 | performs the specified creation, or reports the clash and changes nothing |
| SessionStore.SessionDatabase.AppendEvent | fiat_agent/sessions/store.py:284-318 | performs the specified append, chaining to the tip by default, and returns the inserted row |
| SessionStore.SessionDatabase.NextSeq | fiat_agent/sessions/store.py:320-325 | one above the session's highest number |
| SessionStore.SessionDatabase.ListSessionEvents | fiat_agent/sessions/store.py:327-337 | exactly the session's rows ordered by seq, whatever their numbers; insertion order when they were numbered as added |
| SessionStore.SessionDatabase.GetEventPath | fiat_agent/sessions/store.py:339-361 | an error exactly for an id not in the session; otherwise bounded and linked on any pointers and any numbers, and the whole root-to-event path when parents are earlier rows |
| SessionStore.SessionDatabase.GetActivePath | fiat_agent/sessions/store.py:363-372 | the path to the tip; empty without a session or tip |
| SessionStore.SessionDatabase.RollbackToEvent | fiat_agent/sessions/branches.py:30-44 | performs the specified rollback, with its two errors |
| SessionStore.SessionDatabase.CreateBranch | fiat_agent/sessions/branches.py:46-89 | performs the specified branching: the others of the session deactivated, tip moved to the base |
| SessionStore.SessionDatabase.GetActiveBranch | fiat_agent/sessions/branches.py:91-99 | the session's last-created branch, which is active; none exactly when it has no branch |
| SessionStore.SessionDatabase.GetBranchPath | fiat_agent/sessions/branches.py:101-127 | the suffix of the active path that starts at the base, empty when the base is not on it, all of it without a base; an error for an unknown or foreign branch, and for a session without a row |
| Amounts.ParseAmount | fiat_agent/tool_gateway/cashback_tools.py:147-193 | computes step by step the function that the round-trip theorems and the soundness of acceptance (`AmountSoundness`) are about |
| AmountSoundness.AcceptedIsNumber | fiat_agent/tool_gateway/cashback_tools.py:157-193 | an accepted text has a digit and holds nothing but digits, separators, signs, parentheses, the five currency symbols and white space; up to sign, its coefficient is the number its digits make in order |
| AmountSoundness.OthersAreRefused | fiat_agent/tool_gateway/cashback_tools.py:158-159 | a text without a digit, or with any other character, is refused as unparseable |
| AmountSoundness.LettersAreRefused | fiat_agent/tool_gateway/cashback_tools.py:188-191 | so is any text with a letter |
| AmountSoundness.NothingIsRefused | fiat_agent/tool_gateway/cashback_tools.py:154-159 | no value, an empty one, a blank one and each placeholder are refused |
| AmountSoundness.WrittenReads | fiat_agent/tool_gateway/cashback_tools.py:188-191 | digits mean what they do in decimal: reading a written number gives it back |
| AmountRoundTrip.ParseInvertsUS | fiat_agent/tool_gateway/cashback_tools.py:170-193 | for every amount, grouped or not, any number of fraction digits, any symbols and spaces, parentheses when negative: parsing the US rendering gives the amount back |
| AmountRoundTrip.ParseInvertsEUIff | fiat_agent/tool_gateway/cashback_tools.py:170-193 | parsing the EU rendering gives back the same digits and scale exactly when its separators are unambiguous: one or two fraction digits, or groups beside a longer fraction, or neither |
| AmountRoundTrip.ParseKeepsEUNumberIff | fiat_agent/tool_gateway/cashback_tools.py:170-193 | it gives back the same number exactly then, or for a zero whose figures do not show two or more dots and no comma |
| AmountRoundTrip.RenderingsAgree | fiat_agent/tool_gateway/cashback_tools.py:170-193 | the US rendering always parses; the EU one parses to the same number exactly under that condition, and to the same decimal exactly when unambiguous |
| AmountSigns.SignedToFigures | fiat_agent/tool_gateway/cashback_tools.py:157-168 | of a signed rendering, with symbols and spaces before, behind and after the sign, only the figures are left, behind the sign exactly where it is not dropped |
| AmountSigns.ResolveBehindSign | fiat_agent/tool_gateway/cashback_tools.py:171-186 | behind a sign the separators resolve as without it, except that a lone comma is always removed |
| AmountSigns.SignedUSReads | fiat_agent/tool_gateway/cashback_tools.py:157-193 | signed US figures, parenthesised or not, parse to the amount with the sign applied where it is not dropped |
| AmountSigns.SignedEUReadsIff | fiat_agent/tool_gateway/cashback_tools.py:157-193 | signed EU figures do so, digit for digit, exactly under the unsigned condition where the sign is dropped, and elsewhere exactly when they show both a fraction and groups or neither |
| AmountSigns.SignedEUNumberIff | fiat_agent/tool_gateway/cashback_tools.py:157-193 | as numbers, exactly then or for a zero whose figures make a number |
| AmountSigns.LeadingMinusHonouredIff | fiat_agent/tool_gateway/cashback_tools.py:165 | in both styles, a minus yields the amount's negative exactly where it is not dropped, or the amount is zero, and the figures are read |
| Luhn.IsValidCardNo | fiat_agent/tool_gateway/logistics_tools.py:150-169 | true exactly for 12 to 19 digits, separators aside, whose right-to-left Luhn sum is a multiple of ten |
| Luhn.LuhnTotal | fiat_agent/tool_gateway/logistics_tools.py:160-168 | the left-to-right parity loop computes the right-to-left Luhn sum, at every length |
| Luhn.SingleDigitErrorRejected | fiat_agent/tool_gateway/logistics_tools.py:160-169 | changing any one digit of a passing number makes it fail |
| Luhn.NeighbourSwapUndetectedIff | fiat_agent/tool_gateway/logistics_tools.py:160-169 | swapping two neighbours goes undetected exactly when they are equal or 0 and 9 |
| Luhn.CheckDigitUnique | fiat_agent/tool_gateway/logistics_tools.py:160-169 | each payload has exactly one check digit that makes it pass |
| Luhn.MistypedDigitRejected | fiat_agent/tool_gateway/logistics_tools.py:150-169 | mistyping any one digit of a valid card number, spaced in any way, makes it invalid |
| Luhn.SwappedDigitsUndetectedIff | fiat_agent/tool_gateway/logistics_tools.py:150-169 | swapping two neighbouring digits of it, with any separators between, goes undetected exactly when they are equal or 0 and 9 |
| Luhn.CardCheckDigitUnique | fiat_agent/tool_gateway/logistics_tools.py:150-169 | a payload of 11 to 18 digits, spaced in any way, has exactly one last digit that makes it valid |
| Luhn.SeparatorsMeanNothing | fiat_agent/tool_gateway/logistics_tools.py:157 | a space or a dash anywhere changes no verdict |
| Luhn.OthersInvalidate | fiat_agent/tool_gateway/logistics_tools.py:158-159 | any other character but a digit makes a card number invalid |
| Luhn.ValidIff | fiat_agent/tool_gateway/logistics_tools.py:150-169 | valid exactly when it holds only digits, white space and dashes, has 12 to 19 digits, and their right-to-left sum is a multiple of ten |
| Policy.EnvironmentWronglyBlamedIff | fiat_agent/auth/policy.py:73-86 | a permitted environment is blamed for a denial exactly when the first role is not permitted and a later one is |
| Policy.DecisionMeans | fiat_agent/auth/policy.py:67-98 | on the declared policies: allowed exactly when the tool is declared and lists the first role and the environment; approval exactly when allowed and flagged or at L4 or L5; each denial reason exactly |
| Policy.FreedomMeans | fiat_agent/auth/policy.py:67-98 | a tool runs freely exactly when listed for role and environment, unflagged and at L1 to L3; it waits exactly when listed and flagged or higher |
| Policy.PermittedJoin | fiat_agent/auth/policy.py:101-113 | filtering looks at one tool at a time and keeps the order |
| Policy.FilterTools | fiat_agent/auth/policy.py:101-113 | keeps, in order, exactly the tools declared for the actor's first role and environment |
| Policy.Permitted | fiat_agent/auth/policy.py:101-113 | approval-required tools stay visible: membership is being allowed, nothing else |
| AgentSafety.InvokedIff | fiat_agent/tool_gateway/gateway.py:103-162 | an unapproved call runs its handler exactly when the tool is allowed, needs no approval and has one; it is deferred exactly when it needs approval |
| AgentSafety.BatchIsAnswered | fiat_agent/orchestrator/nodes/tool.py:62-79 | a batch yields one result per call, with its id and name, in order, and one tool message for each |
| AgentSafety.BatchInvokes | fiat_agent/tool_gateway/gateway.py:103-162 | a batch invokes exactly the handlers of its freely permitted calls, once each and in order |
| AgentSafety.InvocationsAreExact | fiat_agent/orchestrator/graph.py:386-411 | over every run, the model's calls are the answered ones in order and then those waiting, and the handlers invoked are exactly those of the answered calls whose tool is permitted, needs no approval and has a handler |
| AgentSafety.NoGatedHandlerEverRuns | fiat_agent/orchestrator/graph.py:386-411 | over every run, for every model and handler behaviour, no handler of a denied or approval-required tool is executed |
| AgentSafety.HandlersRunAsDeclared | fiat_agent/orchestrator/graph.py:386-411 | over every run, each handler executed since the start belongs to a declared tool that lists the actor's first role and environment, is not flagged for approval and is at L1, L2 or L3 |
| AgentOutcomes.CallOutcome | fiat_agent/tool_gateway/gateway.py:102-162 | a call succeeds exactly when it is allowed, needs no approval or has one, has a handler and the handler returns; then the result is what was returned and its content at most 500 characters of it; every other case is the error or deferral that says why |
| AgentOutcomes.CallIsRecorded | fiat_agent/tool_gateway/gateway.py:165-210 | every call leaves one record and one audit event with who, what, where, arguments, status and error |
| AgentOutcomes.BatchShows | fiat_agent/orchestrator/nodes/tool.py:62-79 | each call of a batch gets the tool message and the schema result of its own outcome, case by case |
| AgentOutcomes.ToolStepShows | fiat_agent/orchestrator/nodes/tool.py:62-79 | a tool step appends exactly those messages and results and returns to the model |
| AgentOutcomes.ModelStepShows | fiat_agent/orchestrator/graph.py:167-179 | a model step appends the answer with missing ids filled in and plans exactly when it has calls |
| AgentOutcomes.LatestCallsArePending | fiat_agent/orchestrator/nodes/tool.py:38-42 | the pending calls are those of the latest assistant message that has any, whatever follows it |
| AgentOutcomes.LatestAnswerDecides | fiat_agent/orchestrator/graph.py:374-378 | tools are wanted exactly when the latest assistant message has calls |
| AgentOutcomes.AnswerEndsRun | fiat_agent/orchestrator/graph.py:386-411 | an answer without calls ends the run as the last message, with no tool run, whatever comes after |
| AgentOutcomes.PlanStepShows | fiat_agent/orchestrator/nodes/plan.py:61-82 | planning keeps the batch's tools that are registered and permitted, with a status saying whether that is all, some or none |
| AgentOutcomes.RequestShows | fiat_agent/orchestrator/nodes/approval.py:92-106 | a request is made in the actor's name and environment for the tools held, and halts the run; without any the run goes on |
| AgentSafety.ConversationStaysWellFormed | fiat_agent/orchestrator/graph.py:373-411 | on a fresh thread, tool messages answer the preceding turn's calls one for one in order with the same ids; nothing is owed at the final answer, exactly the last batch at a halt; messages, results, gateway records and audit events agree one for one |
| AgentSafety.AnswersSettle | fiat_agent/orchestrator/nodes/tool.py:65-79 | a batch's tool messages settle exactly the ids owed, in order |
| AgentSafety.BatchKeepsLedger | fiat_agent/tool_gateway/gateway.py:165-210 | each call of a batch adds one result, one record and one audit event, about the same call with matching status |
| AgentSafety.BatchHaltsIff | fiat_agent/orchestrator/graph.py:181-250 | after planning and the approval node a batch halts PENDING exactly when it holds an approval-required tool that is registered (or no member is both registered and permitted), with no gateway call and unanswered, through kept, trimmed and dropped plans alike |
| AgentSafety.HeldBatchIsNeverRun | fiat_agent/orchestrator/graph.py:380-408 | however the run goes on, no member of a batch that must wait reaches the gateway; it stays unanswered and the run stays halted |
| AgentSafety.PlanningLeavesCandidates | fiat_agent/orchestrator/nodes/plan.py:61-82 | planning calls nothing and leaves the available members of the batch as candidates if any, else the whole batch |
| AgentSafety.WaitingCandidates | fiat_agent/orchestrator/nodes/approval.py:57-83 | the approval node asks only for members that need approval, and for every registered one that does |
| AgentSafety.HaltIsFinal | fiat_agent/orchestrator/graph.py:380-408 | a halted or finished run changes nothing any more |
| AgentSafety.RequestRiskIsL5Iff | fiat_agent/orchestrator/nodes/approval.py:60-75 | a request is at L5 exactly when some tool it names is |
| ApprovalFlow.HeldToolsNeedApprovers | fiat_agent/orchestrator/nodes/approval.py:91-100 | whatever happens before and after, the approval filed for a held run keeps its arguments, tools and environment, is dual exactly when a required tool is L5, and is approved only by people who approved it after it was filed, two different ones if it is dual |
| AgentSafety.RequestSnapshotsArguments | fiat_agent/orchestrator/nodes/approval.py:35-42 | a request holds, per tool, the arguments of that tool's first call in the held batch |
| AgentSafety.RiskOfIsHighest | fiat_agent/orchestrator/graph.py:217-224 | the accumulated risk is that of some tool, or L1, and no tool's is higher |
| AgentLoop.ToolGateway.RegisterHandler | fiat_agent/tool_gateway/gateway.py:62-68 | adds one handler name, everything else unchanged |
| AgentLoop.ToolGateway.ExecuteTool | fiat_agent/tool_gateway/gateway.py:71-162 | performs the specified call: verdict, at most one handler invocation, one record, one audit event |
| AgentLoop.ToolGateway.Finish | fiat_agent/tool_gateway/gateway.py:165-210 | writes the record and the audit event, on every way out |
| AgentLoop.ToolNode | fiat_agent/orchestrator/nodes/tool.py:53-79 | performs the specified batch: gateway state, tool messages and results |
| AgentLoop.DerivePlanStep | fiat_agent/orchestrator/graph.py:202-230 | reads the pending calls into a plan, or none |
| AgentLoop.Classify | fiat_agent/orchestrator/graph.py:217-224 | accumulates the highest risk and whether any tool needs approval |
| AgentLoop.CollectRequired | fiat_agent/orchestrator/nodes/approval.py:57-75 | accumulates the tools to approve, their arguments and the highest risk |
| AgentLoop.ApprovalNodeStep | fiat_agent/orchestrator/nodes/approval.py:45-106 | the request for those tools, or none |
| AgentLoop.AgentGraph.RunNode | fiat_agent/orchestrator/graph.py:141-303 | performs one node and its outgoing edge; a model call starts a round |
| AgentLoop.AgentGraph.ARun | fiat_agent/orchestrator/graph.py:413-420 | performs the specified run, for as long as the environment lasts |
| ApprovalSpec.StepKeepsInv | fiat_agent/approvals/service.py:83-159 | every operation keeps each approval's fields in agreement with its status and with who decided it |
| ApprovalSpec.DecidedIsFinal | fiat_agent/approvals/service.py:112-159 | over every continuation a decided approval is unchanged, and no approval loses what its request fixed, its parameter snapshot included |
| ApprovalSpec.DualNeedsTwoPeople | fiat_agent/approvals/service.py:121-136 | an approved record was approved by someone in the run, an L5 one by two different people |
| ApprovalSpec.DecidedSinceRequest | fiat_agent/approvals/service.py:83-159 | from its request on, an approval keeps what was requested, and its decisions were made by operations since |
| ApprovalSpec.OnlyApprovedSubmissions | fiat_agent/workflows/production_submit.py:68-108 | over every run, the write ran only with submission enabled, on records approved then and still |
| ApprovalSpec.SubmitsIff | fiat_agent/workflows/production_submit.py:83-108 | the write runs exactly for an approved record, with submission enabled and a handler given; the result says which |
| ApprovalHistory.ApproveStep | fiat_agent/approvals/service.py:112-142 | what an approval makes of an undecided request: approved by that person, or with the first of two recorded |
| ApprovalHistory.ApprovedIff | fiat_agent/approvals/service.py:112-142 | approved by a person exactly when that person's approve is the first decision, or, if two are needed, the first by someone other than the only approver so far |
| ApprovalHistory.RejectedIff | fiat_agent/approvals/service.py:144-159 | rejected by a person for a reason exactly when that reject came while it was undecided |
| ApprovalHistory.PendingIff | fiat_agent/approvals/service.py:112-159 | pending exactly when nobody tried to decide it, or two are needed and one person alone has approved |
| ApprovalHistory.DecidedByOperationsSince | fiat_agent/approvals/service.py:83-159 | over every run, what was asked for stays and the operations since the request decide the rest, whatever came before |
| ApprovalHistory.RequestDoes | fiat_agent/approvals/service.py:83-102 | a request files what it asks for, undecided, needing two people exactly at L5 |
| ApprovalHistory.SubmissionShows | fiat_agent/workflows/production_submit.py:48-108 | each way a submission ends: the error that says what is missing, a fake result without a write, or the write's own fields with only the guard's four keys touched |
| ApprovalService.Service.Request | fiat_agent/approvals/service.py:83-102 | stores a new pending approval, dual exactly for L5 |
| ApprovalService.Service.Approve | fiat_agent/approvals/service.py:112-142 | performs the specified approval on the stored object, or changes nothing and reports why |
| ApprovalService.Service.Reject | fiat_agent/approvals/service.py:144-159 | performs the specified rejection on the stored object, or changes nothing and reports why |
| ApprovalService.ProductionSubmitGuard.EnsureApproved | fiat_agent/workflows/production_submit.py:48-66 | the stored record if it is approved, else the error |
| ApprovalService.ProductionSubmitGuard.Submit | fiat_agent/workflows/production_submit.py:68-108 | performs the specified submission |
| Cashback.ParseIsExact | fiat_agent/tool_gateway/cashback_tools.py:247-307 | one record per row in order; exactly the rows whose key occurred earlier are flagged, each with its key's first row; exactly the rows without a readable amount are in error |
| Cashback.ParseRows | fiat_agent/tool_gateway/cashback_tools.py:254-307 | the one-pass loop with its first-seen dictionary computes that |
| Cashback.NamedIff | fiat_agent/tool_gateway/cashback_tools.py:264-303 | a row is named by a duplicate, or an amount error, exactly when it is one |
| CashbackLaws.DuplicateCount | fiat_agent/tool_gateway/cashback_tools.py:289-303 | as many duplicates as keyed rows beyond the distinct keys |
| CashbackLaws.OrderDoesNotMatter | fiat_agent/tool_gateway/cashback_tools.py:247-307 | permuting the rows changes neither the number of duplicates nor the total |
| CashbackCells.RecordShowsRow | fiat_agent/tool_gateway/cashback_tools.py:257-286 | every record shows its own row's cells, trimmed, and the amount its text reads as |
| CashbackCells.AmountErrorShows | fiat_agent/tool_gateway/cashback_tools.py:263-275 | a row is in error for its amount exactly when it shows none, and the error says why |
| CashbackCells.DuplicateShows | fiat_agent/tool_gateway/cashback_tools.py:288-303 | a duplicate names its row's key and the first row that shows it |
| CashbackCells.NoNumberNoAmount | fiat_agent/tool_gateway/cashback_tools.py:263-275 | in the program's parser, a row whose amount cell has no digit, or has a character no amount may have, is in error |
| Reconcile.ReconcileRows | fiat_agent/workflows/cashback_reconcile.py:158-241 | the loops over the index, the extra issues, the tally and the seen keys compute the specified report |
| Reconcile.ReconciliationIsExact | fiat_agent/workflows/cashback_reconcile.py:208-241 | matched and mismatched add up to the rows, mismatched counts the rows some issue names, keys are unique, de-duplication drops nothing, the plan aligns with the issues, the total is the sum of the parsed amounts |
| Reconcile.RowIsMatchedIff | fiat_agent/workflows/cashback_reconcile.py:166-209 | a row is matched exactly when no issue names it, that is: no duplicate, a readable amount, a valid status, no arrival gap |
| Reconcile.NothingDropped | fiat_agent/workflows/cashback_reconcile.py:212-231 | de-duplicating issues with distinct keys is the identity |
| Reconcile.Dedup | fiat_agent/workflows/cashback_reconcile.py:212-231 | keeps the first issue of each row and type |
| Reconcile.DedupKeepsFirsts | fiat_agent/workflows/cashback_reconcile.py:212-231 | de-duplicating any issues keeps, in order, exactly those whose row and type none before them has |
| ReconcileIssues.IssuesAreExact | fiat_agent/workflows/cashback_reconcile.py:166-231 | the report lists exactly the duplicates, the amount errors, and the records whose status is missing, unknown, or paid without a positive amount |
| ReconcileIssues.MatchedMeans | fiat_agent/workflows/cashback_reconcile.py:36-47 | a record is matched exactly when it repeats no key, shows an amount, has one of the four statuses and, if paid, a positive amount |
| ReconcileIssues.PlanMeans | fiat_agent/workflows/cashback_reconcile.py:40-47 | each issue has the remedy of its type, about its own row and transaction |
| ReconcileIssues.TotalGrows | fiat_agent/workflows/cashback_reconcile.py:204-206 | the total grows row by row by what each amount is worth; a row without one adds nothing |
| LogisticsStatus.PhaseNeverDecreases | fiat_agent/tool_gateway/logistics_tools.py:53-70 | along an accepted run the phase never decreases and nothing but RETURNED follows RETURNED |
| LogisticsStatus.DeliveryWasComplete | fiat_agent/tool_gateway/logistics_tools.py:53-70 | an accepted run from CREATED to DELIVERED was picked up, in transit and out for delivery first, in that order |
| LogisticsStatus.ReachableIff | fiat_agent/tool_gateway/logistics_tools.py:121-132 | one status leads to another by accepted updates exactly when its phase is not later |
| LogisticsStatus.AliasesUnambiguous | fiat_agent/tool_gateway/logistics_tools.py:72-101 | no label names two statuses |
| LogisticsStatus.ChangesExact | fiat_agent/tool_gateway/logistics_tools.py:53-132 | the accepted changes, one by one: nine edges and standing still; a missing status is never accepted |
| LogisticsStatus.LabelsExact | fiat_agent/tool_gateway/logistics_tools.py:72-101 | which labels name which status, whatever their case and the space around them |
| Logistics.ParseRows | fiat_agent/tool_gateway/logistics_tools.py:354-462 | the loop checks every row in full and collects all records, errors and violations |
| Logistics.CheckRow | fiat_agent/tool_gateway/logistics_tools.py:372-447 | the checks of one row, in order, with every combination of anomalies |
| Logistics.ErrorsAreRowwise | fiat_agent/tool_gateway/logistics_tools.py:372-435 | the errors about a row are exactly those of its own checks, in order |
| Logistics.ViolationsExact | fiat_agent/tool_gateway/logistics_tools.py:437-447 | a violation is reported, once and in row order, exactly where both statuses normalise, differ and the edge is not allowed |
| Logistics.IssueRowIff | fiat_agent/tool_gateway/logistics_tools.py:234-240 | a row is among those with issues exactly when a check of its own fails |
| Logistics.AggregateConservesRows | fiat_agent/workflows/logistics_validation.py:118-153 | validated and invalid add up to the rows, invalid counts exactly the failing rows, reported rows lie in 1..n |
| Logistics.PlaceholdersAreTooShort | fiat_agent/tool_gateway/logistics_tools.py:391-404 | no address is ever reported as a placeholder |
| LogisticsCells.RecordShowsRow | fiat_agent/tool_gateway/logistics_tools.py:354-371 | one record per row, in order, each field showing its own cell |
| LogisticsCells.FieldErrorsExact | fiat_agent/tool_gateway/logistics_tools.py:372-435 | exactly the errors that some record gives rise to, reason by reason |
| LogisticsCells.AllViolationsExact | fiat_agent/tool_gateway/logistics_tools.py:437-447 | exactly the forbidden changes between known statuses, with both statuses |
| LogisticsCells.SoundRowMeans | fiat_agent/tool_gateway/logistics_tools.py:144-147 | in the program's parser, a row is without issues exactly when number, address, card and statuses are as required, written out |
| LogisticsCells.ReportShows | fiat_agent/workflows/logistics_validation.py:118-153 | the report repeats every error and violation in order, rows counted from one |
| Compaction.CompactEvents | fiat_agent/context/compaction.py:52-97 | the one-pass summary is the events' digests combined in order; an empty window is an error |
| Compaction.CompactionIsHomomorphism | fiat_agent/context/compaction.py:52-97 | compacting a then b is merging their summaries |
| Compaction.MergeAssociative | fiat_agent/context/compaction.py:65-95 | summaries may be merged in any grouping |
| Compaction.SummaryReportsHighest | fiat_agent/context/compaction.py:82-90 | the reported approval and risk are each some event's, and the highest of any; one rejection decides |
| Compaction.DocumentedOrderIff | fiat_agent/context/compaction.py:59-86 | the reported approval is the one the documented order gives exactly when the window does not report both an approval and a rejection |
| Compaction.StaysDue | fiat_agent/context/compaction.py:42-49 | a window due for compaction stays due when it grows at either end |
| SummaryMeaning.GoalIsFirst | fiat_agent/context/compaction.py:68-69 | the goal is the trimmed text, goal or task of the first user message that has any; empty exactly when none has |
| SummaryMeaning.ListsAreGathered | fiat_agent/context/compaction.py:63-95 | one line per tool call with at most 120 characters of its result, all references and ids in order, and the last event's next steps alone |
| SummaryMeaning.RiskIsHighest | fiat_agent/context/compaction.py:88-90 | L5 if any event reports it, else L4, and so on down to none |
| SummaryMeaning.ApprovalIsStrongest | fiat_agent/context/compaction.py:82-86 | rejected if any approval event says so in any case, else approved, else pending, else none |
| SummaryMeaning.DueMeans | fiat_agent/context/compaction.py:36-49 | each event weighs a quarter of its payload's length rounded down and one, or nothing without a payload; a window is due when together they exceed the threshold |

## Left out

- FastAPI routes, CLI, Lark bot, web console, MCP adapter and client, LLM providers, prompts and narratives: the model is an arbitrary choice of text and tool calls.
- SQLAlchemy, transactions and asyncio: tables are sequences and maps, and each operation, and `stream` up to its replay list, is one atomic step. Rows are values in a table, so that the same ORM object is handed out twice is not captured.
- SessionStore.SessionDatabase.AppendEvent: the number is always the next one; explicit `seq` values are covered only by listing and walking, and rows of equal number are listed as they were added.
- Session columns other than the tip, timestamps, durations and result summaries in gateway records.
- An explicit parent that does not name an event of the session: the store accepts it; the session theorems assume callers pass one that does, and `SessionStore.Walk` covers arbitrary pointers.
- SessionStore.SessionDatabase.CreateSession: an id already taken is an error of the database, modelled as one error value.
- EventStream.Generator.Next: waiting on an empty queue is an answer of "nothing yet"; wake-ups and cancellation are not modelled, and a generator dropped without `aclose` keeps its queue.
- EventStream.Publish: other handlers are assumed not to touch the manager, and their exceptions, which the bus swallows, do not appear.
- The classify, build_context and final nodes, traces, emitted events, LangGraph's checkpointer and recursion limit: runs start at the model node on a fresh thread.
- `can_execute`'s environment override, resource and denied actions: the loop never passes them.
- Tool arguments are opaque JSON text, so unparseable arguments are not mapped to an empty dictionary; wordings of errors and tool messages are datatype constructors. Handlers return text: the JSON that `_summarize` makes of other values is not modelled.
- AgentLoop.AuditService.RecordToolCall: never fails. In the code a successful result is recorded inside the `try` block (`fiat_agent/tool_gateway/gateway.py:136-162`), so an audit store that raises there leaves two gateway records for one call; the bookkeeping theorems assume it does not.
- AgentLoop.ApprovalNodeStep: returns the request it would record; storing it is `ApprovalService.Service.Request`.
- ApprovalService.Service.Request: ids are fresh by assumption; the snapshot is a value, so nested dictionaries shared with the caller are not modelled.
- Listing approvals and decision times.
- Amounts.ParseAmount: ASCII digits and whitespace only; exponents, underscores, NaN, infinities and negative zero are not modelled, and decimals are exact scaled integers rather than rounded to a context.
- CashbackLaws.OrderDoesNotMatter: totals are exact reals.
- Reconcile.ReconcileRows: takes the parse result itself; its trip through dictionaries and decimal text is taken as the identity, as is the unreachable fallback action of `_plan_for`.
- File reading, JSON and YAML loading, issue wordings beyond their facts, and warnings, which `parse_rows` never sets.
- Compaction.CompactEvents: event content is a record of the fields that are read; JSON snippets and content sizes are given values.
- ES, DB, Lark and test-environment tools, model routing and skill loading: one-branch checks.
