# Customer-service dispatch: a verified model

The customer-service server keeps, for each queue, a line of waiting users, a set of agents, and the
conversations between them. Agents are found by account number and are also linked in a list kept in
load order (lighter load first, larger capacity first among equals). The server invites the
least-loaded agents; an invited agent that accepts takes the user at the front of the line; agents
refuse, hand conversations on, go offline and come back. The client library keeps requests that await
an answer in a deque numbered by a 31-bit wrapping index.

Each operation of a queue holds the queue's mutex for its whole body, so each is modelled as one atomic
step.

## How the model is built

- `Dispatch` is the queue as a state machine on values: a function for each operation, `Step` over all of
  them, and `Coherent`, the agreement of the redundant parts of one state (pool and list, conversation
  sets and conversation pool, load and set size). `LoadOrder` and `Rosters` hold the order of the agents
  and the operations on the roster.
- `Agents`, `Conversations`, `Sequences` and `Queues` are the server's objects on the heap: `Agent` nodes
  with `prev` and `next`, the managers with their pools, the queue with its deque. Every method of
  `Queues.Queue` that models an operation is proved to take exactly the step of `Dispatch` and to keep
  the heap well linked. A ghost sequence records the order the nodes are linked in.
- `Effects`, `InvitedFirst` and `Changes` say what a caller observes of each operation in terms of the state
  before it, without mentioning how `Dispatch` computes it: success, reports, records, list, invitations.
- `Invariants`, `Inviting`, `Refusals`, `Waiting`, `Line`, `Told`, `WorkConservation` and `Attendance` prove what
  each step keeps; `Histories` is the record a run leaves behind (it is not server state); `Runs` puts the steps
  together into statements about every reachable state and every run, `LoadBalance` and
  `Registering` about registrations and rounds of joins and acceptances, `Systems` about several queues
  sharing one id counter. `Reached` gives the runs that lead to the example states.
- `Callbacks` is the pending-callback queue as values, compared with a finite map from index to request;
  `CallbackQueues` the object that updates its deque in place; `CallbackRuns` whole runs.
- `AsWritten` builds operations from the text of the source, taken literally, where that departs from what
  the rest of it relies on, and says exactly when they still take the state machine's step.

The files depend on nothing outside this directory: `dafny verify dfyconfig.toml` checks them all.

## Where the source departs from its intent

- `CustomService/src/Agent.h:84-86` assigns `agent_ptr->prev` before following it. The heap method
  `Agents.Agent.OrderToHead` links the predecessor to this node, as the mirror at lines 58-60 does.
  `Agents.Agent.OrderToHeadAsWritten` takes the source literally: the loop comes back exactly when the
  node does not have to move; otherwise the node and its neighbour form a cycle of two and the loop
  never ends. `AsWritten` states on the queue when ending a conversation, redirecting it, or going
  offline hangs, in both directions.
- `CustomService/src/CSConversationMgr.cpp:125` joins its tests with `&&` where `||` is needed. The state
  machine rejects a conversation that is missing or not owned by `from`. `AsWritten.AgentRedirect` takes
  the source literally: a missing conversation is a null dereference, a foreign one is handed over.
- `CustomService/src/Queue.cpp:70-89` advances an iterator whose element
  `CustomService/src/Agent.cpp:23` has just erased, which C++ leaves undefined as soon as the agent has a
  conversation. The heap method and the state machine drain an ascending snapshot of the ids;
  `AsWritten.AgentOffline` takes the source literally, and `AsWritten.MendedOffline` mends the iterator only.
- `CustomService/src/CSAgentMgr.cpp:47-59` erases an agent and leaves its account in the inviting set. This
  is kept as it is, and the record of a run (`leftover`) keeps track of such accounts. They count as
  invitations in `do_invite`, so a user can wait beside an idle agent with nobody being invited:
  `Reached.StrandedReached` is such a run, and `Attendance` says exactly when it happens.
- `CustomService/src/Queue.cpp:228-252` drops the conversation, answers false and invites nobody. This is
  kept as it is; `Attendance.EndAttendsExactly` says when that leaves a user waiting beside an agent
  that could be invited.
- `CustomServiceClient/src/CallbackQueue.cpp:62-63` clears the callback of the entry found by distance without
  comparing its index. `Callbacks.RemoveTakesFromMap` says exactly when that is right.
- `CustomServiceClient/src/CallbackQueue.h:46` ignores the constructor's argument for `other`; the model does
  the same.

## Bounds

The counters are sixteen bits wide in the source (`load`, `capacity`, `num`, `pos`, `idx`, the size of the
inviting set) and conversation ids sixty-four. They wrap in the model too. The statements about runs assume
that no event overflows one (`Dispatch.Room`): at most 65535 users wait (the invitations out then stay within
the same bound), loads stay below 65536, and fewer than 2^64 conversations are opened.
`AsWritten.ConnectCoherentExactly` shows that the bound on the load is exact.
The callback queue assumes fewer than 2^31 entries before each add.

## Model

| member | source | states |
|---|---|---|
| LoadOrder.OrderToTailCorrect | CustomService/src/Agent.h:47-71 | with the order meant being lighter load first and larger capacity first among equals: if all but one node are in order and that node may stand too far left, sliding it right sorts the list, and its slot is the only one behind all nodes of equal load and capacity and ahead of all that follow |
| LoadOrder.OrderToHeadCorrect | CustomService/src/Agent.h:73-97 | the mirror image: the slot is the only one ahead of all nodes of equal load and capacity |
| LoadOrder.TailSlotStops | CustomService/src/Agent.h:51-56 | in loads and capacities: the slide passes every lighter node and every equally loaded one of at least this capacity, and stops before the first node that is neither |
| LoadOrder.HeadSlotStops | CustomService/src/Agent.h:76-82 | the mirror image |
| LoadOrder.MovedKeepsOthers | CustomService/src/Agent.h:47-97 | a slide leaves the relative order of all other nodes as it was |
| LoadOrder.MovedElements | CustomService/src/Agent.h:47-97 | a slide neither loses nor duplicates a node |
| Rosters.Eligibles | CustomService/src/Agent.h:99-102 | the agents that can be invited are exactly those below capacity, AVAILABLE and without an invitation out |
| Rosters.InsertKeeps | CustomService/src/CSAgentMgr.cpp:10-26 | registering keeps the list a listing of the pool, each agent once, in load order |
| Rosters.EraseKeeps | CustomService/src/CSAgentMgr.cpp:47-59 | erasing keeps the same |
| Rosters.AddConversationKeeps | CustomService/src/Agent.cpp:8-19 | one conversation more keeps the same |
| Rosters.RemoveConversationKeeps | CustomService/src/Agent.cpp:21-31 | one conversation less keeps the same |
| Rosters.AnswerKeeps | CustomService/src/CSAgentMgr.cpp:61-102 | an answered invitation keeps the same |
| Rosters.InviteKeeps | CustomService/src/CSAgentMgr.cpp:142-156 | inviting keeps the same |
| Rosters.LightestFirst | CustomService/src/Agent.h:109-112 | a well-formed list names every pooled agent once, with a lighter load, or an equal load and at least the capacity, ahead |
| Rosters.AddsOne | CustomService/src/Agent.cpp:8-19 | a new conversation enters the set, the load rises by one, and no other agent's record changes |
| Rosters.RemovesOne | CustomService/src/Agent.cpp:21-31 | a dropped conversation leaves the set, the load falls by one, and no other agent's record changes |
| Dispatch.FirstAt | CustomService/src/Queue.cpp:191-205 | the place found is the login's first one, or the length if it does not wait |
| Dispatch.DropInverse | CustomService/src/CSConversationMgr.cpp:89-99 | dropping a conversation keeps agents and conversations exact inverses and loads exact, and never takes a load below zero |
| Agents.Agent.OrderToTail | CustomService/src/Agent.h:47-71 | the pointer loop ends with the list being the old one with this node moved right to the slot where, in loads and capacities, it must stop, `prev` inverting `next` |
| Agents.Agent.SwapWithNext | CustomService/src/Agent.h:58-67 | one round exchanges this node and its successor in the list |
| Agents.Agent.OrderToHead | CustomService/src/Agent.h:73-97 | the same towards the head, with the predecessor linked as intended |
| Agents.Agent.SwapWithPrev | CustomService/src/Agent.h:84-93 | one round, as intended, exchanges this node and its predecessor |
| Agents.Agent.SwapWithPrevAsWritten | CustomService/src/Agent.h:84-93 | one round, as written, links the two nodes to each other and to nothing else |
| Agents.Agent.OrderToHeadAsWritten | CustomService/src/Agent.h:73-97 | the loop as written comes back, within any number of rounds, exactly when the node need not move |
| Agents.Agent.Erase | CustomService/src/Agent.cpp:34-50 | unlinks the node: the list is the old one without it |
| Agents.Agent.Insert | CustomService/src/Agent.cpp:53-67 | links the node in behind the sentinel and slides it to its slot |
| Agents.Agent.AddConversation | CustomService/src/Agent.cpp:8-19 | false and no change for an id in the set; otherwise set, load and place in the list change as stated |
| Agents.Agent.RemoveConversation | CustomService/src/Agent.cpp:21-31 | false and no change for an id not in the set; otherwise set, load and place in the list change as stated |
| Agents.Agent.RemoveConversationAsWritten | CustomService/src/Agent.cpp:21-31 | set and load change as above; the slide as written comes back exactly when the node, one conversation lighter, need not move |
| Agents.AgentManager.constructor | CustomService/src/Agent.h:38-38 | a new manager has an empty pool, an empty list and no invitations |
| Agents.AgentManager.FindIs | CustomService/src/CSAgentMgr.cpp:124-140 | a lookup finds the pooled node of the account, and only under the exact login it registered with |
| Agents.AgentManager.Insert | CustomService/src/CSAgentMgr.cpp:10-26 | null exactly when the account is pooled already; otherwise pool and linked list are those of the roster's insertion |
| Agents.AgentManager.Erase | CustomService/src/CSAgentMgr.cpp:47-59 | refused exactly when the load is above zero; otherwise pool and list lose the agent and the inviting set is unchanged |
| Agents.AgentManager.AddConversation | CustomService/src/Agent.cpp:8-19 | pool and linked list after the node's own method are those of the roster's operation |
| Agents.AgentManager.RemoveConversation | CustomService/src/Agent.cpp:21-31 | likewise |
| Agents.AgentManager.RemoveConversationAsWritten | CustomService/src/Agent.cpp:21-31 | for any number of rounds, the removal as written comes back exactly when `Rosters.RemoveAsWritten` does, with that roster |
| Agents.AgentManager.Accept | CustomService/src/CSAgentMgr.cpp:61-80 | null and no change without a known login and an invitation; otherwise the invitation is consumed and the agent AVAILABLE |
| Agents.AgentManager.Refuse | CustomService/src/CSAgentMgr.cpp:83-102 | false and no change without a known login and an invitation; otherwise it is consumed and the agent REFUSE |
| Agents.AgentManager.GetList | CustomService/src/CSAgentMgr.cpp:105-121 | following `next` from the head reports each pooled agent once, in load order, and counts them |
| Agents.AgentManager.Invite | CustomService/src/CSAgentMgr.cpp:142-156 | the scan passes only agents that cannot be invited, stops at the first that can, marks it, and changes nothing else |
| Conversations.ConversationManager.Insert | CustomService/src/CSConversationMgr.cpp:45-60 | null exactly when the id is taken; otherwise the conversation is pooled |
| Conversations.ConversationManager.Erase | CustomService/src/CSConversationMgr.cpp:89-99 | the conversation leaves its agent's set and the pool, nothing else changes |
| Conversations.ConversationManager.Redirect | CustomService/src/CSConversationMgr.cpp:115-135 | null and no change unless the conversation exists and `from` owns it; otherwise it leaves one set, changes owner and enters the other |
| Sequences.Sequence.NextCvs | CustomService/src/Sequence.h:33-38 | the counter moves on by one, modulo 2^64, and is handed out |
| Sequences.Sequence.InitCvs | CustomService/src/Sequence.h:22-25 | the counter continues from the last id used |
| Queues.Queue.constructor | CustomService/src/Queue.h:17-20 | a new queue is empty and well linked |
| Queues.Queue.AgentList | CustomService/src/Queue.cpp:8-12 | reports every pooled agent once, under its login and name, a lighter load or an equal load and at least the capacity ahead |
| Queues.Queue.AgentPresence | CustomService/src/Queue.cpp:15-34 | takes the state machine's step, invitations reported included, and keeps the heap well linked |
| Queues.Queue.AgentAbsence | CustomService/src/Queue.cpp:38-56 | takes the state machine's step; no conversation links to the erased agent |
| Queues.Queue.AgentOffline | CustomService/src/Queue.cpp:59-96 | with the loop going over a snapshot of the ids, takes the state machine's step; no conversation links to the erased agent |
| Queues.Queue.DrainConversations | CustomService/src/Queue.cpp:69-89 | the loop over a snapshot of the ids drains the conversations in ascending order and reports each user |
| Queues.Queue.AgentAccept | CustomService/src/Queue.cpp:99-137 | takes the state machine's step, with every failure return and everything reported |
| Queues.Queue.Serve | CustomService/src/Queue.cpp:112-136 | the front user leaves the line for a conversation under the next id; invitations and positions follow |
| Queues.Queue.AgentRefuse | CustomService/src/Queue.cpp:139-147 | takes the state machine's step |
| Queues.Queue.AgentRedirect | CustomService/src/Queue.cpp:150-170 | takes the state machine's step |
| Queues.Queue.UserJoin | CustomService/src/Queue.cpp:173-184 | takes the state machine's step |
| Queues.Queue.UserDepart | CustomService/src/Queue.cpp:187-210 | the search loop and the removal take the state machine's step |
| Queues.Queue.ConversationEnd | CustomService/src/Queue.cpp:228-252 | takes the state machine's step, which drops the conversation and answers false |
| Queues.Queue.DoInvite | CustomService/src/Queue.cpp:254-270 | refines the specification of inviting; the waiting users and the conversations are unchanged |
| Queues.Queue.ScanAndInvite | CustomService/src/Queue.cpp:254-270 | the scan over the linked list marks and returns exactly the first eligible agents, as many as users are without an invitation |
| Queues.Queue.GetUserInfo | CustomService/src/Queue.cpp:272-290 | the loop reports every waiting user from a position on with its true position |
| InvitationScan.ScanTo | CustomService/src/CSAgentMgr.cpp:142-156 | agents passed over stay uninvitable whoever was invited before, so a scan need never go back |
| InvitationScan.ScanDone | CustomService/src/Queue.cpp:254-270 | a scan stopped by its count or by the end of the list has chosen exactly the first min(eligible, waiting - inviting) agents |
| Invariants.ChosenCount | CustomService/src/Queue.cpp:254-270 | the agents chosen are distinct, had no invitation out, and the inviting set grows by their number |
| Invariants.HandOverCoherent | CustomService/src/CSConversationMgr.cpp:115-135 | a redirect by the owner, also to itself, keeps agents and conversations exact inverses |
| Invariants.OfflineDrains | CustomService/src/Queue.cpp:59-96 | the whole loop equals one step: the agent's users in descending conversation order go in front of the line, its conversations and the agent are gone, and inviting follows |
| Invariants.OfflineReports | CustomService/src/Queue.cpp:69-81 | each user of the agent is reported once, with its conversation, in ascending order |
| Invariants.OfflineLeavesNothing | CustomService/src/Queue.cpp:59-96 | the agent is in neither pool nor list, exactly its conversations are gone, the others are unchanged |
| Invariants.PresenceKeeps | CustomService/src/Queue.cpp:15-34 | keeps the invariant: coherent, counters in range, ids issued |
| Invariants.AbsenceKeeps | CustomService/src/Queue.cpp:38-56 | keeps the invariant; no conversation is left without its agent |
| Invariants.OfflineKeeps | CustomService/src/Queue.cpp:59-96 | keeps the invariant |
| Invariants.AcceptKeeps | CustomService/src/Queue.cpp:99-137 | keeps the invariant |
| Invariants.RefuseKeeps | CustomService/src/Queue.cpp:139-147 | keeps the invariant |
| Invariants.RedirectKeeps | CustomService/src/Queue.cpp:150-170 | keeps the invariant |
| Invariants.JoinKeeps | CustomService/src/Queue.cpp:173-184 | keeps the invariant |
| Invariants.DepartKeeps | CustomService/src/Queue.cpp:187-210 | keeps the invariant |
| Invariants.EndKeeps | CustomService/src/Queue.cpp:228-252 | keeps the invariant |
| Invariants.StepKeeps | CustomService/src/Queue.cpp:15-252 | every operation keeps conversations and agents exact inverses, loads exact, the list a sorted listing of the pool, counters in range, ids issued |
| Effects.StepSucceeds | CustomService/src/Queue.cpp:15-252 | when each operation answers true, in terms of the state before it, and that only a successful accept moves the id counter |
| Effects.StepReports | CustomService/src/Queue.cpp:59-290 | everything an operation reports but invitations: the conversation accepted with its agent, name, user and address; the users returned and the conversations they lose; the conversation ended with agent and user; the positions told; nothing else |
| Effects.AcceptReportsConversation | CustomService/src/Queue.cpp:127-131 | a successful accept reports the new id, the accepting login and its name, the front user and its address, and pools a conversation of the two under that id |
| InvitedFirst.DoInviteInvitesFirst | CustomService/src/Queue.cpp:254-270 | `do_invite` invites agents with room, available and uninvited, none behind one it could have invited, until as many are invited as users wait or nobody can be; it reports exactly them, once and in list order, and changes only their state and the inviting set |
| Changes.StepInvitesFirst | CustomService/src/Queue.cpp:15-270 | the same of every operation that invites, with the invitations told from the inviting set before and after; the others invite nobody |
| Changes.StepRecords | CustomService/src/Queue.cpp:15-252 | what each operation does to every agent's record: who is pooled, under which login, name and capacity, in which state, with which conversations and load |
| Changes.StepRelists | CustomService/src/Agent.cpp:8-67 | what each operation does to the list: all others keep their order, a newcomer or an agent with one conversation more stands behind its equals, one with one less ahead of them |
| Changes.RefuseSettles | CustomService/src/CSAgentMgr.cpp:83-102 | a refusal counts exactly when the login is known and invited; then its agent is in state REFUSE, has no invitation out and is not invited by the same call |
| Inviting.StepAccounted | CustomService/src/CSAgentMgr.cpp:10-156 | every step keeps the inviting set the disjoint union of the agents being invited and the leftover accounts, and load plus outstanding invitation within capacity plus redirects received |
| Refusals.StepSpares | CustomService/src/CSAgentMgr.cpp:83-156 | no step invites an agent that refused, or changes its state, unless it erases it |
| Waiting.StepUsers | CustomService/src/Queue.cpp:59-252 | what each step does to the line and to the conversations, in full |
| Waiting.StepBalanced | CustomService/src/Queue.cpp:59-252 | every step keeps waiting users plus users in conversation plus departed plus ended equal to joined, as multisets |
| Line.StepInLine | CustomService/src/Queue.cpp:99-210 | no step but an offline that returns users moves a waiting user backwards; newcomers stand behind everybody or were returned to the front |
| Told.StepTold | CustomService/src/Queue.cpp:99-137 | while no login waits twice, the position each user was last told is true except between an offline that returns users and the next acceptance |
| Told.TellPositions | CustomService/src/Queue.cpp:272-290 | the notices for all users from a place on make every position last told true, if it was true ahead of that place |
| WorkConservation.DoInviteBusy | CustomService/src/Queue.cpp:254-270 | from any state, after inviting either the inviting set, accounts erased with an invitation out included, is as large as the line, or no agent can be invited |
| WorkConservation.StepBusy | CustomService/src/Queue.cpp:15-270 | every operation but conversation_end keeps that, failure returns included, and one that reaches do_invite establishes it |
| WorkConservation.EndBusyExactly | CustomService/src/Queue.cpp:228-252 | conversation_end keeps it if and only if the inviting set is as large as the line, or the relieved agent is not AVAILABLE, has an invitation out, or was above capacity |
| WorkConservation.EndMayLapse | CustomService/src/Queue.cpp:228-252 | a state in which ending a conversation leaves a user waiting beside an idle agent |
| Attendance.DoInviteAttendsExactly | CustomService/src/Queue.cpp:254-270 | counting only pooled agents being invited: after inviting, either they are as many as the waiting users or nobody can be invited, if and only if no account was erased with an invitation out, or they were as many before, or nobody could be invited, or those who could plus the inviting set are at most as many as the users |
| Attendance.UnattendedWithinLeftovers | CustomService/src/CSAgentMgr.cpp:47-59 | in a busy queue at most as many users wait unattended beside an agent that could be invited as accounts were erased with an invitation out |
| Attendance.EndAttendsExactly | CustomService/src/Queue.cpp:228-252 | conversation_end keeps users attended if and only if the agents being invited are as many as the users, or the relieved agent cannot be invited anyway |
| Attendance.StepAttended | CustomService/src/Queue.cpp:15-270 | a step after which no erased account has an invitation out leaves every user attended, unless it is conversation_end |
| Runs.EveryReachableStateIsGood | CustomService/src/Queue.cpp:15-270 | every state a run reaches from the empty queue is coherent, accounts for its invitations, conserves its users, keeps their line, has told them the truth, and is busy unless a conversation ended since |
| Runs.AlwaysLightestFirst | CustomService/src/Agent.h:47-112 | in every reachable state the list names every pooled agent once, a lighter load, or an equal load and at least the capacity, ahead |
| Runs.UnattendedOnlyByLeftovers | CustomService/src/Queue.cpp:15-270 | in every reachable state, unless a conversation ended since agents were last invited, the users waiting unattended beside an agent that could be invited are at most the accounts erased with an invitation out |
| Runs.WithoutRedirectsWithinCapacity | CustomService/src/Queue.cpp:99-170 | in a run without redirects, with capacities of at least one, no agent's load plus outstanding invitation exceeds its capacity, leftover invitations included |
| Runs.RefusedNeverInvited | CustomService/src/CSAgentMgr.cpp:83-156 | over any run that does not erase it, an agent that refused is never invited |
| Runs.RefuserNeverInvited | CustomService/src/CSAgentMgr.cpp:83-156 | over any run that starts with a refusal that counts and does not erase its agent, the agent is never invited |
| Runs.RunInLine | CustomService/src/Queue.cpp:99-210 | over any run that returns nobody, no user still waiting has moved backwards |
| Runs.OvertakenOnlyByReturned | CustomService/src/Queue.cpp:99-210 | over any run, whoever stands ahead of a waiting user stood ahead before or was returned by an offline agent |
| LoadBalance.RoundTurns | CustomService/src/Queue.cpp:173-184 | a join among level idle agents invites exactly the head of the list, whose acceptance sends it to the tail with one conversation more |
| LoadBalance.RoundsLevel | CustomService/src/Queue.cpp:99-137 | after k more rounds, while capacity lasts, k more turns have been served and the list is still level: its last r' agents have had m' + 1 turns and the others m' |
| LoadBalance.RoundsPlayable | CustomService/src/Queue.cpp:99-137 | as many rounds as the agents have capacity left together can be played, whoever joins |
| LoadBalance.LoadsStayBalanced | CustomService/src/Queue.cpp:99-137 | from n idle agents of capacity C, after at most n*C rounds any two loads differ by at most one |
| Registering.RegistrationsReach | CustomService/src/Queue.cpp:15-34 | agents of equal capacity that register one after the other stand idle in the list in that order |
| Registering.BalancedFromStart | CustomService/src/Queue.cpp:15-184 | from the empty queue, n registrations of capacity C and up to n*C rounds can be played, and however they are played no two loads differ by more than one |
| Systems.ActHealthy | CustomService/src/Sequence.h:22-38 | any action of any queue keeps every queue's invariant and keeps the conversation ids of different queues apart |
| Systems.OthersSeeElsewhere | CustomService/src/Sequence.h:33-38 | to the other queues an action is at most an id taken elsewhere |
| Systems.AcceptSucceeds | CustomService/src/Queue.cpp:99-121 | accepting succeeds if and only if the login is known, was invited and somebody waits: the pool insertion cannot fail |
| Systems.IdsAreFreshEverywhere | CustomService/src/Queue.cpp:115-121 | in every state any number of queues reach together, the next id is new in all of them |
| Systems.EveryQueueRuns | CustomService/src/Sequence.h:33-38 | whatever several queues do together, each is in a state it reaches alone from the empty queue, by its own events and ids taken elsewhere |
| Systems.EveryQueueIsGood | CustomService/src/Queue.cpp:15-270 | every queue among others has all the properties of a reachable state |
| AsWritten.RemoveReturnsExactly | CustomService/src/Agent.cpp:21-31 | a removal with the slide as written comes back if and only if nobody blocks the agent, and then it did what was intended |
| AsWritten.DropReturnsExactly | CustomService/src/CSConversationMgr.cpp:89-99 | dropping a conversation, built from the removal as written, comes back if and only if its agent is not blocked, and then gives the state machine's state |
| AsWritten.EndHangsExactly | CustomService/src/Queue.cpp:228-252 | conversation_end, built from the removal as written, hangs if and only if the conversation exists and its agent would have to move up; otherwise its outcome equals the state machine's step |
| AsWritten.EndMayHang | CustomService/src/Agent.h:84-86 | two agents with one conversation each: ending the second agent's hangs |
| AsWritten.TakingHangsExactly | CustomService/src/CSConversationMgr.cpp:130-132 | handing a conversation over, built from the removal as written, hangs if and only if `from` owns it and is blocked; otherwise it equals the intended one, whoever owns it |
| AsWritten.RedirectSafeExactly | CustomService/src/CSConversationMgr.cpp:115-135 | redirect as written finishes and leaves a coherent queue if and only if the conversation exists, belongs to one of the two agents, and the owner is not a blocked `from` |
| AsWritten.RedirectAgreesExactly | CustomService/src/CSConversationMgr.cpp:115-135 | it takes the state machine's step if and only if an agent is unknown, or `from` owns the conversation and is not blocked |
| AsWritten.RedirectMayTakeOver | CustomService/src/CSConversationMgr.cpp:125-128 | an agent takes over another's conversation by redirecting it to itself; a missing conversation crashes |
| AsWritten.OfflineAsWrittenExactly | CustomService/src/Queue.cpp:59-96 | offline as written hangs if and only if the agent has conversations and is blocked, is undefined if and only if it has some and is not blocked, and otherwise takes the state machine's step |
| AsWritten.MendedOfflineExactly | CustomService/src/Queue.cpp:59-96 | with only the iterator mended, going offline hangs if and only if the agent has conversations and the one directly ahead of it has some too or no larger capacity; otherwise its outcome equals the state machine's step |
| AsWritten.ConnectCoherentExactly | CustomService/src/Agent.cpp:16-16 | a new conversation keeps the queue coherent if and only if the load is below 65535 |
| AsWritten.LoadWraps | CustomService/src/Agent.cpp:16-16 | at 65535 the load wraps to zero while the set holds 65536 conversations |
| Reached.FullHouseReached | CustomService/src/Queue.cpp:228-252 | a run from the empty queue to the state of `EndMayLapse` |
| Reached.OneBusyReached | CustomService/src/CSConversationMgr.cpp:125-128 | a run from the empty queue to the state of `RedirectMayTakeOver` |
| Reached.TwoBusyReached | CustomService/src/Agent.h:84-86 | a run from the empty queue to the state of `EndMayHang` |
| Reached.StrandedReached | CustomService/src/CSAgentMgr.cpp:47-59 | a run in which an invited agent leaves and another registers: a user waits beside the idle agent, nobody is being invited, and no conversation ever ended |
| Callbacks.NumberingKept | CustomServiceClient/src/CallbackQueue.cpp:24-151 | every operation keeps the indexes consecutive modulo 2^31, ending with the one given out last |
| Callbacks.CountsFromFront | CustomServiceClient/src/CallbackQueue.cpp:31-37 | entry i has index front + i modulo 2^31, and the last one the index given out last |
| Callbacks.OffsetIsSearch | CustomServiceClient/src/CallbackQueue.cpp:102-112 | for every 32-bit index the masked distance finds an entry if and only if a linear search does, and the same one |
| Callbacks.AddExtendsMap | CustomServiceClient/src/CallbackQueue.cpp:24-37 | an add puts a request with exactly the callback, kind, context, ids and time passed in into the map, under the next index, which was free |
| Callbacks.DealTakesFromMap | CustomServiceClient/src/CallbackQueue.cpp:73-121 | for every 32-bit index Deal hands out a callback if and only if the map has one, that very request, and takes exactly it off the map |
| Callbacks.DealFindsBySearch | CustomServiceClient/src/CallbackQueue.cpp:73-121 | Deal's answer, entry and remaining queue in terms of a linear search: the front leaves with the tombstones behind it, another entry becomes a tombstone, nothing else changes; the reserved index succeeds and changes nothing |
| Callbacks.RemoveTakesMasked | CustomServiceClient/src/CallbackQueue.cpp:40-70 | a remove takes exactly the request off the map whose index agrees in the low 31 bits |
| Callbacks.RemoveTakesFromMap | CustomServiceClient/src/CallbackQueue.cpp:58-63 | it takes off exactly the named index if and only if the top bit is clear, or no live request agrees in the other bits |
| Callbacks.RemoveFindsBySearch | CustomServiceClient/src/CallbackQueue.cpp:40-70 | Remove's answer and remaining queue in terms of a linear search, top bit aside: the front leaves under its own index, another entry loses its callback, nothing else changes |
| Callbacks.RemoveMayHitAnother | CustomServiceClient/src/CallbackQueue.cpp:62-63 | removing index 2^31 + 2 drops request 2 |
| Callbacks.CheckIsExact | CustomServiceClient/src/CallbackQueue.cpp:124-151 | a check calls back late requests in order, all of them if and only if no live request in time stands before a late one, and leaves the queue empty or a live request in time at its front |
| Callbacks.CheckInTimeOrder | CustomServiceClient/src/CallbackQueue.cpp:124-151 | with request times nondecreasing it calls back exactly the requests with a callback that waited longer than the timeout, in order, and leaves none |
| Callbacks.CheckTakesFront | CustomServiceClient/src/CallbackQueue.cpp:133-149 | a check takes from the front tombstones and requests that waited longer than the timeout, up to the first request in time |
| Callbacks.LateIs | CustomServiceClient/src/CallbackQueue.cpp:142-142 | the positions of late requests are those with a callback and more than the timeout between request and check |
| Callbacks.CheckTakesFromMap | CustomServiceClient/src/CallbackQueue.cpp:124-151 | a check takes only late requests off the map, and calls back each one it takes |
| Callbacks.CheckMayMissLate | CustomServiceClient/src/CallbackQueue.cpp:24-37 | two requests queued against their times: a check misses a late one |
| CallbackQueues.CallbackQueue.constructor | CustomServiceClient/src/CallbackQueue.cpp:14-17 | an empty, well-numbered queue with timeout 1000 |
| CallbackQueues.CallbackQueue.AddCallback | CustomServiceClient/src/CallbackQueue.cpp:24-37 | the reserved index for a missing callback and no change; otherwise the map gains, under the fresh index returned, a request with exactly what was passed in |
| CallbackQueues.CallbackQueue.RemoveCallback | CustomServiceClient/src/CallbackQueue.cpp:40-70 | for a given index the map loses exactly it; the answer and every other index as specified |
| CallbackQueues.CallbackQueue.Deal | CustomServiceClient/src/CallbackQueue.cpp:73-121 | hands out exactly the live request of the index and takes it off the map; the trimming loop loses no live request |
| CallbackQueues.CallbackQueue.CheckQueue | CustomServiceClient/src/CallbackQueue.cpp:124-151 | the loop takes off and returns what the specification says, all late requests when none stands behind one in time |
| CallbackRuns.HandedOutAtMostOnce | CustomServiceClient/src/CallbackQueue.cpp:24-159 | over any interleaving, each registered request is handed out with its callback at most once by Deal and checks together, unaltered, under the index its add returned, and never if it was removed |
| CallbackRuns.HandedAsPassed | CustomServiceClient/src/CallbackQueue.cpp:24-159 | whatever is handed out carries the callback, payload and time of the add it answers, under the index that add returned |
| CallbackRuns.RunRegisters | CustomServiceClient/src/CallbackQueue.cpp:24-37 | the requests registered over a run are its adds with a callback, in order, field by field |
| CallbackRuns.EachRequestHasOneFate | CustomServiceClient/src/CallbackQueue.cpp:24-159 | if only given indexes are removed, each registered request waits, was handed out, or was removed, and only one of the three |
| CallbackRuns.CheckHandsOutCalled | CustomServiceClient/src/CallbackQueue.cpp:152-158 | what a run counts as handed out by a check is what the check calls back, in order |
| CallbackRuns.ChecksMissNothing | CustomServiceClient/src/CallbackQueue.cpp:124-151 | in a run whose requests are queued in the order of their times, every check is exact |

## Left out

- Network reactors, handlers, packets, message encoding, configuration and statistics: input and output around the queues.
- The database: whether an agent may serve a queue is a parameter of `AgentPresence` (its name, or nothing), and saving a conversation has no effect on the queue.
- Clocks: the time of a request and of a check are parameters, and so is the order in which threads reach the lock.
- Reads without the lock (`user_amount`, `get_cvs`, lookup of a queue): each locked operation is one step, and nothing else is.
- `user_score`, and the score of a conversation: they touch nothing else.
- `CSAgentMgr::erase(const UMID&)`, `accept` with `passive` false, the `force` parameter, `is_weak_aval` and `CSConversationMgr::erase(const uint64&)`: no queue operation uses them.
- `next_msg` and `init_msg`: a second counter like the first.
- Grouping invitations and notices by server before they are sent: dispatch of results, not queue state.
- `CancelQueue` and `Call`: the first calls every entry and leaves it queued (`CustomServiceClient/src/CallbackQueue.cpp:161-172`), so a request can be called again later and lies outside the at-most-once claim; the second is a switch over function pointers.
- `CustomService/src/ImsCallbackQueue.cpp`: a second copy of the callback queue with the same algorithm, a default timeout of 10 and another width of the reserved index; it is modelled once, with the client's constants.
- `m_timeout_ms` is compared with seconds although its name says milliseconds; the model compares the same numbers and does not name a unit.
- The managers hold their nodes by value inside `std::map`; in the model the pools hold references, which is what the stable addresses of the source amount to.
- A conversation is redirected by a method that is also given the agent manager, so that the ghost record of the list can follow; the source reaches the list through the nodes alone.
- `SetTimeout` between checks is covered by giving each check of a run its own timeout.
- Queues.Queue.AgentOffline: does not model the undefined advance of an erased iterator, because the language says nothing of what follows; it drains a snapshot of the ids. `AsWritten.OfflineAsWrittenExactly` says when the literal loop gets that far.
- Queues.Queue.DrainConversations: goes over a snapshot of the ids for the same reason.
- Agents.Agent.OrderToHead: models the intended link; the literal one is `OrderToHeadAsWritten`.
- Conversations.ConversationManager.Redirect: models the intended guard; the literal one is `AsWritten.AgentRedirect`.
