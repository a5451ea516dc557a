/** What each request and each user operation does to the registry and its
    stores, as functions from stores to stores. */
module Receiver {
  import opened Options
  import opened Json
  import opened Authentication
  import opened Contacts
  import opened Pending
  import opened Registry

  // ---------------------------------------------------------------- requests

  /** The JSON body of a request: rejected by the checks on its shape with some
      HTTP status, or its message with the sender it claims. */
  datatype Body = Malformed(status: int) | Body(message: Value, claimedUrl: Str, senderName: Str)

  const KNOWN := Lit("known")
  const TRUSTED := Lit("trusted")

  datatype Route =
    | Refuse(status: int)
    | ToApproval(url: Str)
    | ToUser(url: Str)
    | ToChild(url: Str, tier: Str)

  /** handle_send_message from the authenticated identity to the branch taken. */
  function RouteOf(required: bool, contacts: Option<seq<Contact>>, peer: Option<Peer>, body: Body): Route {
    if body.Malformed? then Refuse(body.status)
    else if peer.Some? && body.claimedUrl != [] && body.claimedUrl != peer.value.senderUrl then Refuse(403)
    else
      var url := if peer.Some? then peer.value.senderUrl else body.claimedUrl;
      if contacts.Some? then
        if url == [] then Refuse(400)
        else if !(peer.Some? || !required) || !IsKnown(contacts.value, url) then ToApproval(url)
        else
          var tier := EffectiveTier(contacts.value, url).value;
          if tier == KNOWN then ToUser(url) else ToChild(url, tier)
      else if peer.None? && required then Refuse(503)
      else if required then ToUser(url)
      else ToChild(url, TRUSTED)
  }

  /** A Mode C request between its start and its finish. */
  datatype Flight = Flight(senderUrl: Str, senderName: Str, message: Value, tier: Str)

  function FlightOf(route: Route, body: Body): Flight
    requires route.ToChild? && body.Body?
  {
    Flight(route.url, body.senderName, body.message, route.tier)
  }

  function Push(q: Option<Queues>, message: Option<Entry>, approval: Option<Entry>): Option<Queues> {
    if q.None? then None
    else
      Some(Queues(
        if message.Some? then q.value.messages + [message.value] else q.value.messages,
        if approval.Some? then q.value.approvals + [approval.value] else q.value.approvals))
  }

  /** The request up to its first suspension after routing: the whole request,
      except in Mode C, where the child session is about to run. */
  function AfterStart(st: Stores, route: Route, body: Body, id: TaskId, now: Str): Stores
    requires !route.Refuse? ==> body.Body?
  {
    match route
    case Refuse(_) => st
    case ToApproval(url) =>
      st.(tasks := Updated(Created(st.tasks, id, body.message), id, InputRequired, None, None, None),
          queue := Push(st.queue, None, Some(NewApproval(id, url, body.senderName, body.message, now))))
    case ToUser(url) =>
      st.(tasks := Updated(Created(st.tasks, id, body.message), id, InputRequired, None, None, None),
          queue := Push(st.queue, Some(NewMessage(id, url, body.senderName, body.message, now, false)), None))
    case ToChild(_, _) =>
      st.(tasks := Updated(Created(st.tasks, id, body.message), id, Working, None, None, None))
  }

  /** What the child session and the confidence evaluation came to: the session
      failed, something around it did, or there is an answer and its verdict. */
  datatype ChildOutcome = Crashed(error: Str) | NotRun(error: Str) | Answered(text: Str, sufficient: bool)

  /** The text of the exception that reaches the handler. */
  function FailureText(outcome: ChildOutcome): Str
    requires !outcome.Answered?
  {
    if outcome.Crashed? then Lit("Child session failed: ") + outcome.error else outcome.error
  }

  predicate Escalates(evaluates: bool, flight: Flight, outcome: ChildOutcome) {
    outcome.Answered? && flight.tier == TRUSTED && evaluates && !outcome.sufficient
  }

  /** The rest of a Mode C request. `evaluates` holds when confidence evaluation
      is configured and a provider is mounted. */
  function AfterFinish(st: Stores, id: TaskId, flight: Flight, outcome: ChildOutcome, evaluates: bool, now: Str): Stores
  {
    if !outcome.Answered? then
      st.(tasks := Updated(st.tasks, id, Failed, None, Some(FailureText(outcome)), None))
    else if Escalates(evaluates, flight, outcome) then
      st.(tasks := Updated(st.tasks, id, InputRequired, None, None, None),
          queue := Push(st.queue,
            Some(NewMessage(id, flight.senderUrl, flight.senderName, flight.message, now, true)), None))
    else
      st.(tasks := Updated(st.tasks, id, Completed, Some([outcome.text]), None, Some(Autonomous)))
  }

  // --------------------------------------------------------- user operations

  datatype OpResult = Success | StoresMissing | ArgumentMissing | NotFound

  predicate HasStores(st: Stores) { st.queue.Some? && st.contacts.Some? }

  /** First entry of this sender. */
  function FirstFrom(es: seq<Entry>, url: Str): Option<Entry> {
    if es == [] then None else if es[0].senderUrl == url then Some(es[0]) else FirstFrom(es[1..], url)
  }

  function PendingApproval(q: Queues, url: Str): Option<Entry> {
    FirstFrom(PendingOf(q.approvals), url)
  }

  /** The outcome of an operation that needs both stores, a non-empty argument
      and an item it applies to. */
  function ResultOf(st: Stores, arguments: bool, found: bool): OpResult {
    if !HasStores(st) then StoresMissing else if !arguments then ArgumentMissing
    else if !found then NotFound else Success
  }

  function ApproveResult(st: Stores, agent: Str): OpResult {
    ResultOf(st, agent != [], st.queue.Some? && PendingApproval(st.queue.value, agent).Some?)
  }

  function ApprovedText(name: Str): Str {
    Lit("Contact ") + name + Lit(" approved. The sender can now send messages.")
  }

  function AfterApprove(st: Stores, agent: Str, tier: Str, now: Str): Stores {
    if ApproveResult(st, agent) != Success then st
    else
      var e := PendingApproval(st.queue.value, agent).value;
      st.(contacts := Some(WithContact(st.contacts.value, e.senderUrl, e.senderName, tier, now)),
          queue := Some(st.queue.value.(approvals := WithStatus(st.queue.value.approvals, e.taskId, Approved))),
          tasks := Updated(st.tasks, e.taskId, Completed, Some([ApprovedText(e.senderName)]), None, None))
  }

  function BlockedText(name: Str): Str {
    Lit("Contact request from ") + name + Lit(" was blocked.")
  }

  function AfterBlock(st: Stores, agent: Str): Stores {
    if ApproveResult(st, agent) != Success then st
    else
      var e := PendingApproval(st.queue.value, agent).value;
      st.(queue := Some(st.queue.value.(approvals := WithStatus(st.queue.value.approvals, e.taskId, Blocked))),
          tasks := Updated(st.tasks, e.taskId, Failed, None, Some(BlockedText(e.senderName)), None))
  }

  function MessageResult(st: Stores, id: TaskId, arguments: bool): OpResult {
    ResultOf(st, id != [] && arguments, st.queue.Some? && Lookup(st.queue.value.messages, id).Some?)
  }

  function WithMessageStatus(st: Stores, id: TaskId, status: EntryStatus): Option<Queues> {
    if st.queue.None? then None
    else Some(st.queue.value.(messages := WithStatus(st.queue.value.messages, id, status)))
  }

  function AnswerAttribution(e: Entry): Attribution {
    if e.escalated == Some(true) then EscalatedUserResponse else UserResponse
  }

  function AfterRespond(st: Stores, id: TaskId, text: Str): Stores {
    if MessageResult(st, id, text != []) != Success then st
    else
      var e := Lookup(st.queue.value.messages, id).value;
      st.(tasks := Updated(st.tasks, id, Completed, Some([text]), None, Some(AnswerAttribution(e))),
          queue := WithMessageStatus(st, id, Responded))
  }

  function AfterDismiss(st: Stores, id: TaskId): Stores {
    if MessageResult(st, id, true) != Success then st
    else
      st.(tasks := Updated(st.tasks, id, Rejected, None, Some(Lit("Dismissed by user")), Some(DismissedByUser)),
          queue := WithMessageStatus(st, id, Dismissed))
  }

  /** defer looks at its argument before it looks for the stores. */
  function DeferResult(st: Stores, id: TaskId): OpResult {
    if id == [] then ArgumentMissing else MessageResult(st, id, true)
  }

  function AfterDefer(st: Stores, id: TaskId): Stores {
    if DeferResult(st, id) != Success then st
    else st.(queue := WithMessageStatus(st, id, Deferred), deferred := st.deferred + {id})
  }

  function TrustResult(st: Stores, agent: Str, tier: Str): OpResult {
    ResultOf(st, agent != [] && tier != [], st.contacts.Some? && IsKnown(st.contacts.value, agent))
  }

  function AfterTrust(st: Stores, agent: Str, tier: Str): Stores {
    if TrustResult(st, agent, tier) != Success then st
    else st.(contacts := Some(WithTier(st.contacts.value, agent, tier)))
  }

  function AddContactResult(st: Stores, url: Str): OpResult {
    if url == [] then ArgumentMissing else ResultOf(st, true, true)
  }

  /** add_contact once the remote card, and so the name, has been fetched. */
  function AfterAddContact(st: Stores, url: Str, name: Str, tier: Str, now: Str): Stores {
    if AddContactResult(st, url) != Success then st
    else st.(contacts := Some(WithContact(st.contacts.value, url, name, tier, now)))
  }

  // ----------------------------------------------------------- announcements

  /** Pending entries whose task has been neither announced nor deferred. */
  function NewlyPending(es: seq<Entry>, injected: set<TaskId>, deferred: set<TaskId>): seq<Entry> {
    if es == [] then []
    else
      (if es[0].status == Pending && es[0].taskId !in injected && es[0].taskId !in deferred then [es[0]] else [])
      + NewlyPending(es[1..], injected, deferred)
  }

  function IdsOf(es: seq<Entry>): set<TaskId> {
    set e | e in es :: e.taskId
  }
}
