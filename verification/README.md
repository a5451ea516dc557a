# A2A messaging between Amplifier agents: model and proofs

The modules `hooks-a2a-server` and `tool-a2a` let agents on different machines
send each other messages. A receiver turns each request into a task: it waits
for the user's decision on an unknown contact, waits for the user's answer
(Mode A), or is answered by a child session (Mode C), which may hand an
insufficient answer over to the user. The user approves, blocks, trusts,
responds, defers and dismisses; an injection handler announces waiting items to
the session. The sender polls its open tasks in the background and delivers
finished ones to its own session.

The project models this as two state machines and the codecs between them.

* `Contacts`, `Pending`, `Registry`, `Server`, `Injection`, `Tool`, `Agents` and
  `Authentication` hold the classes, with the fields the program updates in
  place and its loops. Each method is proved to do what a function of the old
  state says (`Receiver`, `Sender`, and the functions next to the classes).
* `Protocol` puts the receiver's functions together as a state machine whose
  steps come in any order: requests, Mode C finishes, user operations,
  announcements, restarts on the same files. `Invariant` proves what keeps
  registry, both queues, deferred ids and suspended requests in agreement;
  `ReceiverSafety`, `Announcements`, `Autonomy`, `Provenance` and `Sessions` draw
  the conclusions for whole runs, and `Reopening` shows that a restart finds in the
  files what the process had, with surrogate pairs joined.
* `Routing`, `Origins` and `Operations` say what a request, the end of a child
  session and a user's operation change, by positions, fields and texts and apart from
  the functions of `Receiver`, and that nothing else puts anything into the queues.
* `Sender` is the tracking, polling and delivery machine, with every await a
  point where other steps come in, and `Rounds` says whom its rounds ask and what
  they leave. `World` joins one sender with any number of receivers, `Polling` proves
  that what a receiver answers arrives, `Delivery` that what reaches the session is
  what the receiver said, and `Answers` traces its text back to whoever gave it.
* `Replay` compares the pruned nonce cache with a log that forgets nothing, and
  `SignedRequests` follows it through restarts of the receiver.
  SHA-256 and HMAC are arbitrary functions; the clock is an integer input.
* `Json`, `JsonRoundTrip`, `JsonExact`, `JsonText`, `Envelope`, `Responses` and `Files` are
  the JSON printer, the three replacements that make untrusted data safe, a
  parser after RFC 8259, the tagged envelopes, and the list files.

Four results are conditions rather than plain promises.

* The authenticator is described as rejecting replays. Its nonce cache lives as long
  as the process. A request can be accepted a second time exactly when its timestamp
  was ahead of the server's clock at the first accept, or the receiver restarts while
  the timestamp is within the skew (`SignedRequests.SecondUseExactly`,
  `SignedRequests.SecondAcceptExactly`). Between restarts it is accepted at most
  twice (`SignedRequests.UsesAreBounded`); each restart lets it in anew
  (`SignedRequests.RestartReplays`).
* JSON text cannot carry a high surrogate directly followed by a low one: the
  reader joins the two. All round trips hold exactly when there is no such pair
  in any string. Text read from JSON in which no surrogate stands by itself never
  has one (`JsonExact.ParseClean`); a request body can have one, because Python
  reads the bytes of a body with lone surrogates let through.
* "both" as the source of an agent is meant for agents configured and discovered.
  It means that exactly when discovery lists no unconfigured URL more than once
  (`Agents.BothMeansConfigured`, `Agents.MergeMarks`).
* respond, dismiss, approve and block report success for entries whose tasks a
  restart has lost. They change the task exactly when its request came after the last
  restart (`Sessions.RespondCompletesExactly`, `DismissRejectsExactly`,
  `ApproveCompletesExactly` and `BlockFailsExactly`).

Inputs of the model, chosen freely in every run: fresh task ids (uuid4 is taken
never to repeat, and its text to be plain), timestamps, clocks, the child session's
answer or exception, the confidence verdict, how a request's bytes decode, replies
and faults of status requests, and the order of all steps. Store operations do not
suspend, because nothing is awaited under their locks.

## Model

| member | source | states |
|---|---|---|
| `Delivery.DeliveredIsGenuine` | modules/tool-a2a/amplifier_module_tool_a2a/__init__.py:866-896 | In every run of one sender and any number of receivers, each response delivered to the session is a copy of its receiver's task at some earlier moment, when that task was COMPLETED, FAILED or REJECTED; from then on the task stays in that set at every later moment until that receiver restarts |
| `Delivery.DeliveredOnce` | modules/tool-a2a/amplifier_module_tool_a2a/__init__.py:783-809 | A delivered id is delivered at one position only, and is with no waiting or finished send, no longer polled and not waiting for the next drain |
| `Delivery.ReturnedIsGenuine` | modules/tool-a2a/amplifier_module_tool_a2a/__init__.py:373-393 | Every result a send hands straight to its caller is a copy of the receiver's task at an earlier moment, terminal then and ever since up to a restart of that receiver |
| `Delivery.EverySendIsSomewhere` | modules/tool-a2a/amplifier_module_tool_a2a/__init__.py:356-408 | Once the reply of a send has arrived, its task is at every later moment in exactly one of three places (still polled by the send, handed to its caller, tracked for the poller), or in none exactly when a poll of the send itself has met an unexpected exception |
| `Delivery.ReturnedOrTracked` | modules/tool-a2a/amplifier_module_tool_a2a/__init__.py:356-408 | In every reachable state no task is both returned and tracked, a send still polling has done neither, and a tracked task is in exactly one of pending, completed, delivered |
| `Delivery.RemoteStaysTerminal` | modules/hooks-a2a-server/amplifier_module_hooks_a2a_server/registry.py:89-107 | Across all interleavings a receiver's terminal task stays terminal while that receiver runs |
| `World.RunInv` | modules/tool-a2a/amplifier_module_tool_a2a/__init__.py:295-408 | In every reachable joint state each receiver and the sender satisfy their invariants, and every id is in at most one of: suspended request, reply on its way, polling send, finished send, poller |
| `Polling.EveryPendingIsAsked` | modules/tool-a2a/amplifier_module_tool_a2a/__init__.py:869-880 | In every joint run, whatever is interleaved: each id pending when a round begins is asked about before the poller is idle again, unless the reply that ended the round was an unexpected exception |
| `Polling.FinalAnswerArrives` | modules/tool-a2a/amplifier_module_tool_a2a/__init__.py:878-886 | A task that is COMPLETED, FAILED or REJECTED when the poller asks about it, without a fault on the way, is delivered by the next drain exactly as its receiver holds it, after everything completed before |
| `Polling.FinalAnswerReturns` | modules/tool-a2a/amplifier_module_tool_a2a/__init__.py:373-393 | A blocking send whose poll meets such a task hands it to its caller and stops waiting |
| `Polling.RepliesExactly` | modules/hooks-a2a-server/amplifier_module_hooks_a2a_server/server.py:150-245 | A message request is replied to at once with the task, unless it went to a child session, and then when that session has answered: in no other step, and always with the task as it is then |
| `Polling.ReplyTakenUp` | modules/tool-a2a/amplifier_module_tool_a2a/__init__.py:356-408 | The reply of a send is returned if its task is terminal, polled on by a blocking send, and tracked by a non-blocking one |
| `Answers.SessionIsToldTheSource` | modules/tool-a2a/amplifier_module_tool_a2a/__init__.py:811-859 | End to end on the text itself: what a drain hands to the session reads, between its tags, as one record for each response, in order; a record shown as COMPLETED is labelled "Answered autonomously by agent" if and only if the step of its receiver that gave the answer was a child session's, "Answered by the user directly" if and only if it was a respond to an entry not escalated, "Agent couldn't answer; user responded" if and only if to an escalated one |
| `Answers.DeliveredTextHasSource` | modules/tool-a2a/amplifier_module_tool_a2a/__init__.py:591-631 | End to end: what the sender's session gets for a COMPLETED task, text and attribution, is what one earlier successful step of that very receiver gave that task: the user's response, marked by whether it was escalated, a child session's answer that was not escalated, marked autonomous, or the approval of its own contact request, the oldest pending one of its sender, unmarked; texts of other delivered tasks, as of a REJECTED one answered before, come from such a step as well |
| `Answers.AnswersHaveSource` | modules/hooks-a2a-server/amplifier_module_hooks_a2a_server/registry.py:89-107 | In every joint run the answer of a completed task, with its attribution, and the artifacts of any task were given by such an earlier step of its receiver |
| `Answers.AnswerTakesEffect` | modules/tool-a2a/amplifier_module_tool_a2a/__init__.py:488-503 | Any such step leaves the task COMPLETED with exactly these artifacts and this attribution, so an answer judged insufficient or a response that changed nothing is no source |
| `Provenance.MessagesAreSigned` | modules/hooks-a2a-server/amplifier_module_hooks_a2a_server/server.py:117-182 | With authentication required, with or without a contact store, every message entry of every reachable state, escalated ones included, was in the loaded file or is what the signed bytes of an accepted request decode to, under a key bound to the sender it names, up to surrogate pairs that restarts have joined |
| `Provenance.FlightsAreSigned` | modules/hooks-a2a-server/amplifier_module_hooks_a2a_server/server.py:184-190 | With authentication required every suspended request carries what its signed bytes decode to, accepted under a key bound to its sender |
| `Routing.FirstContactWaits` | modules/hooks-a2a-server/amplifier_module_hooks_a2a_server/server.py:145-157 | From any reachable state, a request that is taken, with a contact store, of a sender no contact has, or without a signature where one is required: a waiting task and, where a queue is attached, exactly one entry, a pending approval with the sender's URL, name and message; nothing else changes but the nonces |
| `Routing.KnownSenderWaits` | modules/hooks-a2a-server/amplifier_module_hooks_a2a_server/server.py:159-182 | A request of a sender whose oldest contact has tier known, or, without a contact store, a signed one where that is required: a waiting task and, where a queue is attached, exactly one entry, a pending message that is not escalated; nothing else changes but the nonces |
| `Routing.TrustedSenderWorks` | modules/hooks-a2a-server/amplifier_module_hooks_a2a_server/server.py:184-190 | A request of a sender whose oldest contact has another tier, or, without a contact store and required authentication, any: a WORKING task, suspended with that tier ("trusted" without a store), and no entry; nothing else changes but the nonces |
| `Routing.ExactlyOneEnd` | modules/hooks-a2a-server/amplifier_module_hooks_a2a_server/server.py:117-186 | A request that is taken meets exactly one of these three cases, and of the third with one tier only |
| `Routing.RefusedLeavesNothing` | modules/hooks-a2a-server/amplifier_module_hooks_a2a_server/server.py:87-165 | A request that fails authentication or has the wrong shape, claims another sender than its key's, names no sender although there are contacts, or is unsigned where it must not be and there is no contact store: only the nonces change |
| `Routing.FinishEffect` | modules/hooks-a2a-server/amplifier_module_hooks_a2a_server/server.py:188-245 | With an answer, a task ends COMPLETED with just that text, autonomously, if and only if its tier is not trusted, nothing evaluates, or the answer was judged sufficient; otherwise it waits for the user, where a queue is attached with one pending entry marked escalated; without an answer it is FAILED with the error's text |
| `Origins.EntriesHaveOrigin` | modules/hooks-a2a-server/amplifier_module_hooks_a2a_server/server.py:150-235 | The converse over runs: every approval was loaded or put there by a first contact, every message was loaded or put there by a known sender's request or, if escalated, by a finish whose answer did not stand, with id, sender, name, message and mark of that step, up to surrogate pairs that restarts have joined |
| `Origins.FlightsHaveOrigin` | modules/hooks-a2a-server/amplifier_module_hooks_a2a_server/server.py:184-190 | The converse over runs: every suspended request was started by a taken request of the third case, with that request's sender, name, message and tier |
| `Invariant.RunInv` | modules/hooks-a2a-server/amplifier_module_hooks_a2a_server/server.py:150-245 | In every state of every run, restarts included: one entry per id across both queues, WORKING exactly for suspended requests and never queued, deferred ids only of message entries that are not pending, task and entry statuses matching |
| `Invariant.StepKeeps` | modules/tool-a2a/amplifier_module_tool_a2a/__init__.py:461-770 | Each request start, Mode C finish, approve, block, respond, dismiss, defer, trust, add_contact, announcement and restart keeps that agreement from any state that has it |
| `ReceiverSafety.NoOrphans` | modules/hooks-a2a-server/amplifier_module_hooks_a2a_server/server.py:150-182 | Every INPUT_REQUIRED task of every reachable state with a queue has exactly one entry in both queues together, and it is pending or deferred |
| `ReceiverSafety.EntriesTellTheTruth` | modules/tool-a2a/amplifier_module_tool_a2a/__init__.py:461-694 | Whenever an entry's task is in the registry: pending means INPUT_REQUIRED with no artifact, error or attribution; responded and approved mean COMPLETED; dismissed means REJECTED; blocked means FAILED |
| `ReceiverSafety.AttributionTellsTheTruth` | modules/tool-a2a/amplifier_module_tool_a2a/__init__.py:618-626 | Five equivalences on every run: autonomous exactly for COMPLETED tasks never queued, (escalated) user response exactly for COMPLETED tasks whose message entry is (not) escalated, dismissed exactly for REJECTED, none exactly for open, FAILED and approval tasks, also after repeated respond, dismiss and defer |
| `ReceiverSafety.OnlyItsOwnSteps` | modules/hooks-a2a-server/amplifier_module_hooks_a2a_server/registry.py:89-107 | A task changes only through its own Mode C finish, a decision on its sender while its approval is pending, or an answer to its own message, and every change but the finish ends in a terminal status |
| `ReceiverSafety.TerminalIsClosed` | modules/tool-a2a/amplifier_module_tool_a2a/__init__.py:591-694 | Along any stretch of a run without restart a task that is COMPLETED, FAILED or REJECTED stays in that set, although it may move inside it |
| `ReceiverSafety.SettledNeverChanges` | modules/hooks-a2a-server/amplifier_module_hooks_a2a_server/server.py:237-245 | FAILED tasks, autonomously COMPLETED tasks and tasks of decided approvals are never changed again before a restart |
| `ReceiverSafety.WorkingIsSuspended` | modules/hooks-a2a-server/amplifier_module_hooks_a2a_server/server.py:184-190 | A task is WORKING if and only if its request is waiting for its child session, and then no queue entry has its id |
| `ReceiverSafety.ModeCOwnsItsTask` | modules/hooks-a2a-server/amplifier_module_hooks_a2a_server/server.py:184-245 | Between start and finish of a Mode C request no interleaved step changes the task or what the request carries |
| `Autonomy.WorkingHasCause` | modules/hooks-a2a-server/amplifier_module_hooks_a2a_server/server.py:118-186 | With authentication required and a contact store, every WORKING task was started by a request with a valid signature under a key bound to the sender's URL, whose tier, not "known", had been the URL's effective tier without a break ever since the contacts were loaded at the start, or a successful approve, add_contact or trust gave it, or a restart had to join a surrogate pair in the contact file |
| `Autonomy.GivingTakesEffect` | modules/tool-a2a/amplifier_module_tool_a2a/__init__.py:481-484 | Any such step leaves a contact of that URL with that tier |
| `Autonomy.ContactsHaveCauses` | modules/hooks-a2a-server/amplifier_module_hooks_a2a_server/contacts.py:75-97 | Every contact of every reachable state has the tier of a loaded contact of that URL or one that an earlier successful approve, add_contact or trust gave that URL, up to surrogate pairs that restarts have joined |
| `Operations.ResultExactly` | modules/tool-a2a/amplifier_module_tool_a2a/__init__.py:435-770 | Each of approve, block, trust, respond, dismiss, defer and add_contact succeeds if and only if both stores are attached, its arguments are given and its subject is there (a pending approval of the agent, a message entry with the id, a contact with the URL); otherwise it reports the first thing missing, in the source's order, and changes nothing |
| `Operations.DeferredStaysQuiet` | modules/tool-a2a/amplifier_module_tool_a2a/__init__.py:633-662 | In every run a defer that reports success changes the one entry's status and the deferred ids, and no task, contact or other entry; and no later call announces the id, restarts included |
| `Operations.AnsweredNeverAnnounced` | modules/tool-a2a/amplifier_module_tool_a2a/__init__.py:591-694 | Nor is a message that was responded to or dismissed with success in any later payload |
| `Operations.RespondEffect` | modules/tool-a2a/amplifier_module_tool_a2a/__init__.py:591-631 | The whole change of a successful respond: its entry is responded; its task, if there, is COMPLETED with just the text, attributed by whether the entry was escalated, and keeps its error |
| `Operations.DismissEffect` | modules/tool-a2a/amplifier_module_tool_a2a/__init__.py:664-694 | The whole change of a successful dismiss: its entry is dismissed; its task, if there, is REJECTED with the fixed error and attribution, and keeps its artifacts |
| `Operations.ApproveEffect` | modules/tool-a2a/amplifier_module_tool_a2a/__init__.py:461-509 | The whole change of a successful approve, for the oldest pending entry of the agent by position: that entry approved, its sender the youngest contact with the given tier, its task, if there, COMPLETED with the text that names the sender |
| `Operations.BlockEffect` | modules/tool-a2a/amplifier_module_tool_a2a/__init__.py:511-542 | The whole change of a successful block, for the same entry: blocked, and its task, if there, FAILED with the text that names the sender |
| `Operations.OldestAskingFound` | modules/tool-a2a/amplifier_module_tool_a2a/__init__.py:454-459 | The lookup behind approve and block finds an entry if and only if one of that sender is pending, and the first of them in the list |
| `Sessions.RespondCompletesExactly` | modules/tool-a2a/amplifier_module_tool_a2a/__init__.py:591-631 | A respond that reports success completes the task with its text if and only if the task's request came after the last restart; otherwise no task changes, only the entry |
| `Sessions.DismissRejectsExactly` | modules/tool-a2a/amplifier_module_tool_a2a/__init__.py:664-694 | A dismiss that reports success rejects the task if and only if its request came after the last restart; otherwise no task changes, only the entry |
| `Sessions.ApproveCompletesExactly` | modules/tool-a2a/amplifier_module_tool_a2a/__init__.py:461-509 | An approve that reports success adds the contact and decides the entry in any case, and completes the task if and only if its request came after the last restart |
| `Sessions.BlockFailsExactly` | modules/tool-a2a/amplifier_module_tool_a2a/__init__.py:511-542 | A block that reports success decides the entry in any case, and fails the task if and only if its request came after the last restart |
| `Sessions.TaskIffReceived` | modules/hooks-a2a-server/amplifier_module_hooks_a2a_server/registry.py:79-87 | The registry holds exactly the tasks whose requests were taken since the last restart |
| `Reopening.RestartReopens` | modules/hooks-a2a-server/amplifier_module_hooks_a2a_server/pending.py:22-47 | At any moment, whatever the texts: reading back what the stores have written gives exactly the queues and contacts of the restart step |
| `Reopening.RestartKeepsExactly` | modules/hooks-a2a-server/amplifier_module_hooks_a2a_server/contacts.py:22-51 | A restart gives back the very queues and contacts the process had if and only if no text in them has a surrogate pair to join |
| `Reopening.CleanRunsResume` | modules/hooks-a2a-server/amplifier_module_hooks_a2a_server/pending.py:22-135 | In every run that began by opening any files of the stores' own shape, and met no text with such a pair, a restart loses and changes nothing in queues and contacts |
| `Reopening.RunClean` | modules/hooks-a2a-server/amplifier_module_hooks_a2a_server/pending.py:51-135 | With such inputs no queue entry, contact or suspended request ever gets a text with a pair, through all steps and restarts |
| `Announcements.AnnouncesExactlyTheNew` | modules/hooks-a2a-server/amplifier_module_hooks_a2a_server/injection.py:38-66 | A call announces an id if and only if it has a pending entry and no earlier call of the session announced it |
| `Announcements.AnnouncedAtMostOnce` | modules/hooks-a2a-server/amplifier_module_hooks_a2a_server/injection.py:45-66 | No id is in two payloads of one session |
| `Announcements.PayloadUnique` | modules/hooks-a2a-server/amplifier_module_hooks_a2a_server/injection.py:68-80 | No id is twice in one payload, approvals and messages together |
| `Announcements.NeverAnnouncedLater` | modules/hooks-a2a-server/amplifier_module_hooks_a2a_server/pending.py:74-92 | A message that has left the pending status, for instance deferred before its first announcement, is in no later payload, across any restarts |
| `Announcements.DeferredFilterIsRedundant` | modules/hooks-a2a-server/amplifier_module_hooks_a2a_server/injection.py:49-57 | In every reachable state the new approvals and messages are the same without the check against deferred_ids; each deferred id has a message entry that is not pending, and no approval |
| `Announcements.PayloadIsPending` | modules/hooks-a2a-server/amplifier_module_hooks_a2a_server/injection.py:42-57 | In any state that satisfies the invariant the payload holds exactly the ids with a pending entry that were not injected yet |
| `Injection.A2AInjectionHandler.Call` | modules/hooks-a2a-server/amplifier_module_hooks_a2a_server/injection.py:38-94 | The text is the envelope of exactly the pending entries that are neither injected nor deferred, continue when there is none, and exactly their ids join the injected ones |
| `Injection.FilterNew` | modules/hooks-a2a-server/amplifier_module_hooks_a2a_server/injection.py:43-57 | The comprehension over pending entries yields what filtering the whole queue would |
| `Injection.AnnouncementReadsBack` | modules/hooks-a2a-server/amplifier_module_hooks_a2a_server/injection.py:68-86 | What stands between the tags always parses, and parses to the records announced if and only if no text in them has a surrogate pair to join; the text's only angle-bracket openings are its own two tags |
| `Injection.AnnouncementShows` | modules/hooks-a2a-server/amplifier_module_hooks_a2a_server/injection.py:68-135 | What the session reads: under approval_requests one record for each announced approval and under pending_messages one for each announced message, in order, each with its entry's task id, sender name, sender URL and message text under their own names, surrogate pairs joined |
| `Injection.PartsTextJoins` | modules/hooks-a2a-server/amplifier_module_hooks_a2a_server/injection.py:96-103 | The text of parts after parts is the one text after the other |
| `Injection.OnePartText` | modules/hooks-a2a-server/amplifier_module_hooks_a2a_server/injection.py:96-103 | A part gives its text if it is a dict that has one, else nothing |
| `Sender.Conservation` | modules/tool-a2a/amplifier_module_tool_a2a/__init__.py:772-787 | Over all interleavings of tracking, poll rounds cut short anywhere, and drains: each tracked id is exactly once in pending, completed or delivered, and no other id is in any of them |
| `Sender.DeliveryFollowsCompletion` | modules/tool-a2a/amplifier_module_tool_a2a/__init__.py:866-896 | The delivered sequence only grows, is a prefix of the completions in completion order, and what is missing is exactly what waits for the next drain |
| `Sender.DeliveredAtMostOnce` | modules/tool-a2a/amplifier_module_tool_a2a/__init__.py:783-787 | No id is delivered at two positions |
| `Sender.UndisturbedRound` | modules/tool-a2a/amplifier_module_tool_a2a/__init__.py:871-892 | A round that nothing disturbs, by whatever replies other than unexpected exceptions, moves exactly the tasks with a terminal reply, in tracking order, and keeps all others in order |
| `Rounds.OwnRoundResult` | modules/tool-a2a/amplifier_module_tool_a2a/__init__.py:871-892 | The machine's own round: after BeginRound, followed by its own steps alone until it is idle, and no unexpected exception, the pending tasks are exactly those without a terminal reply, in order, and exactly the others have been completed, each with its reply, in tracking order |
| `Rounds.EveryPendingIsAsked` | modules/tool-a2a/amplifier_module_tool_a2a/__init__.py:869-880 | In every run of the sender, with anything interleaved: each id pending at a BeginRound is waited for before the poller is next idle, unless an unexpected exception ended the round |
| `Rounds.ReplyEffect` | modules/tool-a2a/amplifier_module_tool_a2a/__init__.py:878-892 | A reply that shows COMPLETED, FAILED or REJECTED moves just its task, with that reply, to the end of the completed ones; any other reply, exceptions included, changes neither list |
| `Rounds.DrainDelivers` | modules/tool-a2a/amplifier_module_tool_a2a/__init__.py:783-787 | After a drain everything completed so far has been delivered, in that order, and nothing waits |
| `Sender.StepKeeps` | modules/tool-a2a/amplifier_module_tool_a2a/__init__.py:772-896 | Tracking during an await, a missing id, a failed or broken poll, a completion and a drain each keep the conservation invariant |
| `Tool.A2ATool.TrackOutgoing` | modules/tool-a2a/amplifier_module_tool_a2a/__init__.py:772-781 | A known id keeps its place with the new info, a new id goes last |
| `Tool.A2ATool.CollectCompleted` | modules/tool-a2a/amplifier_module_tool_a2a/__init__.py:783-787 | Everything completed is returned in order and nothing is left |
| `Tool.A2ATool.HandleOutgoingResponses` | modules/tool-a2a/amplifier_module_tool_a2a/__init__.py:789-809 | The drained responses are all in the injected text, which is absent exactly when there are none; what the text shows is `Responses.DeliveryShows` |
| `Tool.A2ATool.SendNonBlocking` | modules/tool-a2a/amplifier_module_tool_a2a/__init__.py:356-371 | A reply without id or with a terminal task is handed on untracked, any other task is tracked, and never both |
| `Tool.A2ATool.SendBlocking` | modules/tool-a2a/amplifier_module_tool_a2a/__init__.py:373-408 | At most the timeout rounded up polls; the outcome is that of the first poll that is terminal or unexpectedly raises, poll by poll the one of the joint system's sends; the task is tracked if and only if no poll was either |
| `Tool.PolledIsFirstEnding` | modules/tool-a2a/amplifier_module_tool_a2a/__init__.py:385-393 | The polls of a send, here and in the joint system, end at the first terminal or raising reply, as that reply says, or go over to tracking exactly when there is none |
| `Tool.PollsIsCeiling` | modules/tool-a2a/amplifier_module_tool_a2a/__init__.py:382-387 | The bound on the polls is the least number of whole seconds not below the timeout |
| `Tool.A2ATool.TakeReply` | modules/tool-a2a/amplifier_module_tool_a2a/__init__.py:878-892 | What one reply does to the two collections is the state machine's reply step, also when the id has vanished meanwhile and the deletion ends the round |
| `Tool.A2ATool.PollRound` | modules/tool-a2a/amplifier_module_tool_a2a/__init__.py:873-892 | The loop over the snapshot of ids is the round specified for it |
| `Responses.DeliveryReadsBack` | modules/tool-a2a/amplifier_module_tool_a2a/__init__.py:811-859 | The envelope of the drained responses parses back to their payload if and only if no response text has a surrogate pair to join, and holds no angle-bracket opening but its own two tags |
| `Responses.DeliveryShows` | modules/tool-a2a/amplifier_module_tool_a2a/__init__.py:811-859 | What the session reads: one record for each drained response, in order, with the agent's name, the task id, the status by name, the texts of all artifacts one after the other and the label of its attribution, each under its own name, surrogate pairs joined |
| `Responses.LabelTells` | modules/tool-a2a/amplifier_module_tool_a2a/__init__.py:829-835 | A label is shown if and only if its attribution is the task's: no two attributions share one |
| `Responses.ResponseTextJoins` | modules/tool-a2a/amplifier_module_tool_a2a/__init__.py:822-827 | The response text of artifacts after artifacts is the one text after the other, and that of one artifact its text |
| `Tool.A2ATool.Approve` | modules/tool-a2a/amplifier_module_tool_a2a/__init__.py:461-509 | Contact, approval entry and task change together as in the state machine's approve step; with stores missing, no URL or no pending approval nothing changes and the error says which |
| `Tool.A2ATool.Block` | modules/tool-a2a/amplifier_module_tool_a2a/__init__.py:511-542 | Approval entry and task change together as in the block step, or nothing changes |
| `Tool.A2ATool.Trust` | modules/tool-a2a/amplifier_module_tool_a2a/__init__.py:558-589 | Only the first contact of that URL changes, only in its tier, or nothing changes |
| `Tool.A2ATool.AddContact` | modules/tool-a2a/amplifier_module_tool_a2a/__init__.py:722-770 | A contact is appended, known URL or not, provided the stores are there |
| `Tool.A2ATool.Respond` | modules/tool-a2a/amplifier_module_tool_a2a/__init__.py:591-631 | Task and message entry change together as in the respond step, whatever the entry's status is |
| `Tool.A2ATool.Defer` | modules/tool-a2a/amplifier_module_tool_a2a/__init__.py:633-662 | The class does the step of which `Operations.ResultExactly` and `Operations.DeferredStaysQuiet` speak: the entry is deferred and its id recorded, in the source's order of checks; the task is untouched |
| `Tool.A2ATool.Dismiss` | modules/tool-a2a/amplifier_module_tool_a2a/__init__.py:664-694 | Task and message entry change together as in the dismiss step, or nothing changes |
| `Tool.A2ATool.FindPendingApproval` | modules/tool-a2a/amplifier_module_tool_a2a/__init__.py:454-459 | The oldest pending approval of that sender |
| `Server.A2AServer.BeginSend` | modules/hooks-a2a-server/amplifier_module_hooks_a2a_server/server.py:82-187 | From the request's bytes: the nonce cache and the stores end as authentication, decoding, routing and the state machine's start step say, and the reply is the stored task, the refusal, or the wait for the child session |
| `Server.A2AServer.Dispatch` | modules/hooks-a2a-server/amplifier_module_hooks_a2a_server/server.py:117-186 | Each branch (mismatched identity, no sender URL, unknown or anonymous sender, no contact store, known tier, other tier) has the effect and reply that the routing specification assigns; what that is, by the request and the contacts, is `Routing.FirstContactWaits` and the lemmas after it |
| `Server.A2AServer.AskApproval` | modules/hooks-a2a-server/amplifier_module_hooks_a2a_server/server.py:150-157 | The new task is waiting and has its one pending approval entry when a queue is attached |
| `Server.A2AServer.AskUser` | modules/hooks-a2a-server/amplifier_module_hooks_a2a_server/server.py:169-182 | The new task is waiting and has its one pending message entry, not escalated, when a queue is attached |
| `Server.A2AServer.StartChild` | modules/hooks-a2a-server/amplifier_module_hooks_a2a_server/server.py:184-190 | The new task is WORKING and no store but the registry changes |
| `Server.A2AServer.FinishSend` | modules/hooks-a2a-server/amplifier_module_hooks_a2a_server/server.py:189-245 | The finish step: failure with the error text of the child session or of what went wrong around it, escalation to the user's queue for an insufficient answer of a trusted contact, or autonomous completion (`Routing.FinishEffect` says which); the reply is the task as stored |
| `Server.A2AServer.HandleGetTask` | modules/hooks-a2a-server/amplifier_module_hooks_a2a_server/server.py:305-313 | The stored task, or not found exactly for ids the registry does not hold |
| `Registry.A2ARegistry.CreateTask` | modules/hooks-a2a-server/amplifier_module_hooks_a2a_server/registry.py:79-87 | Only the new id's task changes, to SUBMITTED with the message as its history |
| `Registry.A2ARegistry.UpdateTask` | modules/hooks-a2a-server/amplifier_module_hooks_a2a_server/registry.py:89-107 | An unknown id changes nothing; a known one gets the status, and old artifacts, error and attribution survive where none is passed |
| `Pending.PendingQueue.constructor` | modules/hooks-a2a-server/amplifier_module_hooks_a2a_server/pending.py:22-42 | From a missing, unreadable, corrupt or valid file: the lists are the files' lists, without a pair to join, and both files read back as the lists in memory |
| `Pending.PendingQueue.AddMessage` | modules/hooks-a2a-server/amplifier_module_hooks_a2a_server/pending.py:51-72 | The entry goes last, pending, and both files read back as the lists in memory with surrogate pairs joined |
| `Pending.PendingQueue.UpdateMessageStatus` | modules/hooks-a2a-server/amplifier_module_hooks_a2a_server/pending.py:85-92 | Only the first entry of that task changes, only in its status; an unknown task writes nothing; both files read back as the lists in memory with surrogate pairs joined |
| `Pending.PendingQueue.AddApproval` | modules/hooks-a2a-server/amplifier_module_hooks_a2a_server/pending.py:96-115 | The entry goes last, pending, and both files read back as the lists in memory with surrogate pairs joined |
| `Pending.PendingQueue.UpdateApprovalStatus` | modules/hooks-a2a-server/amplifier_module_hooks_a2a_server/pending.py:128-135 | Only the first approval of that task changes, only in its status, and both files read back as the lists in memory with surrogate pairs joined |
| `Pending.PendingQueue.GetMessage` | modules/hooks-a2a-server/amplifier_module_hooks_a2a_server/pending.py:78-83 | The first entry of that task, whatever its status |
| `Pending.PendingQueue.GetApproval` | modules/hooks-a2a-server/amplifier_module_hooks_a2a_server/pending.py:121-126 | The first approval of that task, whatever its status |
| `Pending.CollectPending` | modules/hooks-a2a-server/amplifier_module_hooks_a2a_server/pending.py:74-76 | Exactly the pending entries, in order |
| `Pending.EntriesRecover` | modules/hooks-a2a-server/amplifier_module_hooks_a2a_server/pending.py:30-47 | Loading a file just written gives the list in memory with its surrogate pairs joined, and the list itself if and only if it has none |
| `Pending.QueueResumes` | modules/hooks-a2a-server/amplifier_module_hooks_a2a_server/pending.py:22-47 | A queue opened on the file of another one has that one's list with surrogate pairs joined |
| `Pending.JoinEntriesExact` | modules/hooks-a2a-server/amplifier_module_hooks_a2a_server/pending.py:44-47 | The list with its pairs joined is the list itself if and only if no text of it has a pair |
| `Pending.LoadedClean` | modules/hooks-a2a-server/amplifier_module_hooks_a2a_server/pending.py:30-42 | Whatever a file holds, the texts loaded from it have no pair to join, so they survive every later save |
| `Pending.StoredUnder` | modules/hooks-a2a-server/amplifier_module_hooks_a2a_server/pending.py:51-115 | Under which names an entry is stored: task_id, sender_url, sender_name, message, received_at, status by its name, and escalated for message entries only |
| `Files.SavedListLoads` | modules/hooks-a2a-server/amplifier_module_hooks_a2a_server/pending.py:30-47 | For any list of JSON values, load after save is the identity if and only if no string or key has a surrogate pair to join |
| `Files.LoadedListIsStable` | modules/hooks-a2a-server/amplifier_module_hooks_a2a_server/contacts.py:27-51 | What was loaded from any file whatever survives save and load unchanged |
| `Contacts.ContactStore.constructor` | modules/hooks-a2a-server/amplifier_module_hooks_a2a_server/contacts.py:22-43 | From a missing, unreadable, corrupt or valid file: the list is the file's, without a pair to join, and the file reads back as the list in memory |
| `Contacts.ContactStore.FindContact` | modules/hooks-a2a-server/amplifier_module_hooks_a2a_server/contacts.py:53-58 | The index of the first contact with that URL, or the length |
| `Contacts.ContactStore.AddContact` | modules/hooks-a2a-server/amplifier_module_hooks_a2a_server/contacts.py:75-88 | The contact goes last, and the file reads back as the list in memory with surrogate pairs joined |
| `Contacts.ContactStore.UpdateTier` | modules/hooks-a2a-server/amplifier_module_hooks_a2a_server/contacts.py:90-97 | Only the first contact of that URL changes, only in its tier; an unknown URL writes nothing; the file reads back as the list in memory with surrogate pairs joined |
| `Contacts.ContactStore.RemoveContact` | modules/hooks-a2a-server/amplifier_module_hooks_a2a_server/contacts.py:99-106 | The list loses the contact a lookup finds, an unknown URL writes nothing, and the file reads back as the list in memory with surrogate pairs joined |
| `Contacts.ContactStore.UpdateLastSeen` | modules/hooks-a2a-server/amplifier_module_hooks_a2a_server/contacts.py:108-115 | Only the first contact of that URL changes, only in last_seen, and the file reads back as the list in memory with surrogate pairs joined |
| `Contacts.ContactsRecover` | modules/hooks-a2a-server/amplifier_module_hooks_a2a_server/contacts.py:27-51 | Loading a file just written gives the list in memory with its surrogate pairs joined, and the list itself if and only if it has none |
| `Contacts.StoredUnder` | modules/hooks-a2a-server/amplifier_module_hooks_a2a_server/contacts.py:75-88 | Under which names a contact is stored: url, name, tier, first_seen, last_seen |
| `Contacts.ContactsResume` | modules/hooks-a2a-server/amplifier_module_hooks_a2a_server/contacts.py:22-51 | A store opened on the file of another one has that one's list with surrogate pairs joined |
| `Contacts.JoinContactsExact` | modules/hooks-a2a-server/amplifier_module_hooks_a2a_server/contacts.py:45-51 | The list with its pairs joined is the list itself if and only if no text of it has a pair |
| `Contacts.OldestIsFound` | modules/hooks-a2a-server/amplifier_module_hooks_a2a_server/contacts.py:53-73 | The list is a map from URL to oldest entry: known means in the map, and a lookup finds the map's entry |
| `Contacts.AddRefinesMap` | modules/hooks-a2a-server/amplifier_module_hooks_a2a_server/contacts.py:75-88 | On that map an add of a known URL is no change, of an unknown URL one insertion |
| `Contacts.TierRefinesMap` | modules/hooks-a2a-server/amplifier_module_hooks_a2a_server/contacts.py:90-97 | On that map a tier change updates that URL's entry and no other |
| `Contacts.UpdatesTouchOldest` | modules/hooks-a2a-server/amplifier_module_hooks_a2a_server/contacts.py:90-115 | By position: a tier or last_seen update replaces that one field of the oldest contact of the URL, and an unknown URL changes nothing |
| `Contacts.TierChanges` | modules/hooks-a2a-server/amplifier_module_hooks_a2a_server/contacts.py:60-97 | Approving or adding a known URL changes no effective tier of any URL, adding an unknown one gives it the tier, a tier change affects its own known URL only |
| `Contacts.RemoveTakesTheFoundEntry` | modules/hooks-a2a-server/amplifier_module_hooks_a2a_server/contacts.py:99-106 | Removal by equality takes out exactly the position a lookup finds, and leaves the URL its younger entries in order |
| `Contacts.RemoveKeepsOthers` | modules/hooks-a2a-server/amplifier_module_hooks_a2a_server/contacts.py:99-106 | Every other URL keeps all its entries and its effective tier |
| `Authentication.RequestAuthenticator.Verify` | modules/hooks-a2a-server/amplifier_module_hooks_a2a_server/authentication.py:43-118 | Verdict and new cache are those of the pure decision on which the run theorems are proved, for every combination of headers, configuration, clock and cache |
| `Authentication.VerdictExactly` | modules/hooks-a2a-server/amplifier_module_hooks_a2a_server/authentication.py:43-118 | A request is accepted as a peer if and only if all headers are there, its key is configured with a secret and bound to that peer's URL, its timestamp is within the skew, its nonce was not accepted within it, and its signature is the HMAC of timestamp, nonce and body digest; it passes without a peer if and only if it has no header at all and anonymous contact is allowed or authentication not required |
| `Replay.FreshRunRefinesLog` | modules/hooks-a2a-server/amplifier_module_hooks_a2a_server/authentication.py:95-117 | On every call sequence with a clock that never runs back, the pruned cache gives the verdicts of a log that keeps every accept forever and looks only at the last skew seconds |
| `Replay.DropRejected` | modules/hooks-a2a-server/amplifier_module_hooks_a2a_server/authentication.py:52-117 | Taking any calls that were not accepted out of a run leaves all other verdicts as they were |
| `Replay.ReplayGap` | modules/hooks-a2a-server/amplifier_module_hooks_a2a_server/authentication.py:89-117 | Two accepts of one key id and nonce by one authenticator are more than the skew apart |
| `SignedRequests.CacheIsSessionLog` | modules/hooks-a2a-server/amplifier_module_hooks_a2a_server/authentication.py:95-105 | In every run of the receiver, restarts included, with a clock that never runs back, a nonce counts as seen exactly when an earlier request since the last restart was accepted with it and its key within the skew |
| `SignedRequests.AcceptsApart` | modules/hooks-a2a-server/amplifier_module_hooks_a2a_server/authentication.py:89-117 | In every run of the receiver two accepts of one key id and nonce are more than the skew apart, or a restart lies between them |
| `SignedRequests.SecondAcceptExactly` | modules/hooks-a2a-server/amplifier_module_hooks_a2a_server/authentication.py:89-117 | A request that was accepted and comes again, its nonce unused in between, is accepted again if and only if its timestamp is not yet older than the skew, and either more than the skew has passed since the first accept or the receiver has restarted |
| `SignedRequests.SecondUseExactly` | modules/hooks-a2a-server/amplifier_module_hooks_a2a_server/authentication.py:89-105 | A second accept is possible at some later clock if and only if the receiver restarts or the timestamp was ahead of the clock at the first accept |
| `SignedRequests.RestartReplays` | modules/hooks-a2a-server/amplifier_module_hooks_a2a_server/authentication.py:36 | Any accepted request is accepted once more right after a restart, as a second task, also when its timestamp was not ahead |
| `SignedRequests.UsesAreBounded` | modules/hooks-a2a-server/amplifier_module_hooks_a2a_server/authentication.py:89-117 | A nonce under one timestamp is accepted at most twice between restarts, and in a whole run at most twice as often as there are sessions |
| `Replay.AtMostTwice` | modules/hooks-a2a-server/amplifier_module_hooks_a2a_server/authentication.py:89-117 | In the life of one authenticator, under one timestamp a nonce is accepted at most twice in any run, and if twice then once before and once after that timestamp; so once only if the first accept is not before it |
| `Replay.SingleUseExactly` | modules/hooks-a2a-server/amplifier_module_hooks_a2a_server/authentication.py:89-105 | By the same authenticator, a request accepted at some time can be accepted again at a later time if and only if its timestamp was ahead of the clock at the first accept |
| `Replay.SignedIsAccepted` | modules/tool-a2a/amplifier_module_tool_a2a/client.py:193-209 | Headers signed with the server's secret are accepted as the peer bound to the key if and only if the clocks differ by at most the skew and the nonce was not accepted within it, for every body |
| `Replay.SigningInputInjective` | modules/hooks-a2a-server/amplifier_module_hooks_a2a_server/authentication.py:38-41 | Equal signing inputs come from equal timestamp, nonce and digest, when timestamp and digest have no newline; the nonce may |
| `Replay.DecimalRoundTrip` | modules/tool-a2a/amplifier_module_tool_a2a/client.py:199 | The decimal text of the client's clock reads back as its value on the server |
| `JsonExact.SafeJsonExact` | modules/hooks-a2a-server/amplifier_module_hooks_a2a_server/injection.py:105-113 | For every payload the text has no `<`, `>` or `&`, always parses, and parses to the same Python value if and only if no string or key has a high surrogate directly followed by a low one |
| `JsonText.SafeJsonText` | modules/hooks-a2a-server/amplifier_module_hooks_a2a_server/injection.py:105-113 | That text is one line of printable ASCII, and in every dict of it the keys come in order of code points |
| `JsonExact.SequentialIsSimultaneous` | modules/hooks-a2a-server/amplifier_module_hooks_a2a_server/injection.py:108-113 | The three replacements in a row equal one simultaneous character map, on any text |
| `JsonExact.EscapeMarksPrint` | modules/hooks-a2a-server/amplifier_module_hooks_a2a_server/injection.py:108-113 | On printed JSON that map acts inside string literals only: the result is the printing of the same tree with three more escaped characters, so no existing escape is split |
| `JsonExact.SortTreeMeaning` | modules/hooks-a2a-server/amplifier_module_hooks_a2a_server/injection.py:109 | Sorting keys at every depth changes no value's meaning |
| `JsonExact.IndentedExact` | modules/hooks-a2a-server/amplifier_module_hooks_a2a_server/contacts.py:45-51 | Indented printing, as the stores write it, reads back as the identical value if and only if there is no such pair |
| `JsonExact.ParseClean` | modules/hooks-a2a-server/amplifier_module_hooks_a2a_server/contacts.py:32 | Whatever text json.loads accepts, the value can be printed and has no pair to join |
| `JsonRoundTrip.ValueRoundTrip` | modules/hooks-a2a-server/amplifier_module_hooks_a2a_server/injection.py:109 | For every value, style, depth and following text the parser takes exactly the printed value off the front, with surrogate pairs joined |
| `JsonRoundTrip.CharsRoundTrip` | modules/hooks-a2a-server/amplifier_module_hooks_a2a_server/injection.py:109 | A string literal reads back as the string with surrogate pairs joined (section 7 of RFC 8259) |
| `JsonRoundTrip.JoinIdentity` | modules/hooks-a2a-server/amplifier_module_hooks_a2a_server/injection.py:109 | Joining pairs leaves a string as it is if and only if it has none |
| `Envelope.TagsAreOurs` | modules/hooks-a2a-server/amplifier_module_hooks_a2a_server/injection.py:82-86 | The wrapped text has an angle-bracket opening at its first character and at its closing tag, and nowhere else, whatever the payload |
| `Envelope.EnvelopeReadsBack` | modules/tool-a2a/amplifier_module_tool_a2a/__init__.py:797-802 | The text between the tags parses to the payload with keys sorted and pairs joined, which means the payload if and only if it has no pair to join |
| `Agents.ListAgents` | modules/tool-a2a/amplifier_module_tool_a2a/__init__.py:206-239 | The rows are the merge of the three sources alone, whatever source marks earlier calls left on the cached objects |
| `Agents.MergeMeans` | modules/tool-a2a/amplifier_module_tool_a2a/__init__.py:206-239 | The URLs are the union of the three sources; configured agents come first and are marked both exactly when discovery lists their URL; every other row has a URL of its own |
| `Agents.MergeMarks` | modules/tool-a2a/amplifier_module_tool_a2a/__init__.py:216-239 | Every row after the configured ones is unconfigured, and is marked both exactly when discovery lists its URL more than once, mdns exactly when once, contact exactly when never |
| `Agents.MergeNames` | modules/tool-a2a/amplifier_module_tool_a2a/__init__.py:216-239 | Every row after the configured ones has the name of the first discovered agent with its URL, or, if discovery does not list it, of the oldest contact with it |
| `Agents.BothMeansConfigured` | modules/tool-a2a/amplifier_module_tool_a2a/__init__.py:216-226 | Every row marked both is configured if and only if discovery lists no unconfigured URL more than once |
| `Agents.ListTwice` | modules/tool-a2a/amplifier_module_tool_a2a/__init__.py:206-239 | Two calls with the same sources give the same rows, although the first changed the cached objects |
| `Agents.MergeDiscovered` | modules/tool-a2a/amplifier_module_tool_a2a/__init__.py:217-226 | A known URL marks its rows both and adds nothing, a new one adds the cached object itself |
| `Agents.MarkMerged` | modules/tool-a2a/amplifier_module_tool_a2a/__init__.py:219-222 | All and only the rows of that URL become both, in place |
| `Agents.ListedTwiceLooksBoth` | modules/tool-a2a/amplifier_module_tool_a2a/__init__.py:217-226 | One agent that answers discovery twice already breaks that both means configured |

## Left out

- HTTP server and client, sockets, mDNS, agent cards, whoami, discovery, the status operation, tool descriptions and the tool filter per tier: plumbing and one-branch facts.
- Outbound URL policy and `resolve_agent_url`: their meaning is in libraries; a send starts at its URL.
- TTL caches of cards and of discovered agents: each call takes the discovered rows as they are.
- The switch from blocking to non-blocking for agents without real-time responses: `World` lets every send be either.
- Child session and confidence evaluation: any answer, exception or verdict. An evaluation never raises, as its own handler catches everything.
- Reading a request's bytes as JSON and checking its shape: an arbitrary function of the bytes, to a refusal with some status, or a message with its sender URL and name.
- Sender URLs and names that are not strings, and message parts whose text is not a string: not part of the model.
- Trimming of tool arguments: the operations take the trimmed text.
- Failing saves, and files that are not UTF-8.
- Two sessions on the same default store paths: each would overwrite the other's files; a receiver here is alone with its own.
- Pending.PendingQueue.constructor: takes files that are missing, unreadable, not JSON, not a list, or a list of entries of the shape this store writes; a list whose items lack, add or reorder fields, which the program also loads and may fail on later, is not modelled.
- Contacts.ContactStore.constructor: the same for contacts.
- Floating-point values: a number is its token; NaN and the infinities, which Python also reads and writes, are not JSON. Timeouts are real numbers.
- Python's recursion limit on deeply nested JSON.
- Timestamps with signs, spaces, underscores or non-ASCII digits: whatever `int()` makes of them is an arbitrary function of the text.
- Cancelled handlers, stopping the poller and a restart of the sender's process.
- Receivers that run other code than this repository's; their answers to polls are those of the modelled receiver, or faults.
- Liveness: a task may stay open for as long as the user does nothing.
- Tool.A2ATool.PollRound: a round without interleaving, to show that the loop is the one specified; interleaved rounds are steps of `Sender`, whose reply step `Tool.A2ATool.TakeReply` implements.
- Json.Parse: the reader as far as acceptance and value go, not its error messages or positions.
- `docs/plans`: earlier designs, which the code does not follow where they differ; contacts there are unique by URL, here they are not.
