/** The receiver as a state machine: requests, Mode C finishes, user operations,
    announcements and restarts, in any order. */
module Protocol {
  import opened Options
  import opened Json
  import opened JsonRoundTrip
  import opened Authentication
  import opened Contacts
  import opened Pending
  import opened Registry
  import opened Receiver

  /** `decode` is what reading a request's bytes as JSON and checking its shape
      come to. */
  datatype Config = Config(auth: AuthConfig, crypto: Crypto, evaluates: bool, decode: Bytes -> Body)

  /** Stores, suspended Mode C requests, ids announced in this session, nonce
      cache, and every task id ever issued. */
  datatype State = State(
    st: Stores, flights: map<TaskId, Flight>, injected: set<TaskId>, seen: NonceCache, issued: set<TaskId>)

  datatype Event =
    | Receive(request: Request, clock: int, id: TaskId, now: Str)
    | Finish(id: TaskId, outcome: ChildOutcome, now: Str)
    | Approve(agent: Str, tier: Str, now: Str)
    | Block(agent: Str)
    | Respond(id: TaskId, text: Str)
    | Dismiss(id: TaskId)
    | Defer(id: TaskId)
    | Trust(agent: Str, tier: Str)
    | AddContact(agent: Str, name: Str, tier: Str, now: Str)
    | Announce
    | Restart

  /** uuid4 never repeats, and its text is plain. */
  ghost predicate Enabled(s: State, e: Event) {
    match e
    case Receive(_, _, id, _) => id !in s.issued && PairFree(id)
    case Finish(id, _, _) => id in s.flights
    case _ => true
  }

  /** Where a request goes, None when authentication turns it away. */
  function RouteFor(cfg: Config, s: State, request: Request, clock: int): Option<Route> {
    var body := cfg.decode(request.body);
    match Decide(cfg.auth, cfg.crypto, s.seen, request, clock)
    case Anonymous => Some(RouteOf(cfg.auth.required, s.st.contacts, None, body))
    case Accepted(peer) => Some(RouteOf(cfg.auth.required, s.st.contacts, Some(peer), body))
    case _ => None
  }

  function AfterReceive(cfg: Config, s: State, request: Request, clock: int, id: TaskId, now: Str): State {
    var body := cfg.decode(request.body);
    var s1 := s.(seen := CacheAfter(cfg.auth, cfg.crypto, s.seen, request, clock));
    match RouteFor(cfg, s, request, clock)
    case None => s1
    case Some(route) =>
      if route.Refuse? then s1
      else
        var s2 := s1.(st := AfterStart(s.st, route, body, id, now), issued := s.issued + {id});
        if route.ToChild? then s2.(flights := s.flights[id := FlightOf(route, body)]) else s2
  }

  function NewApprovals(s: State): seq<Entry> {
    if s.st.queue.None? then [] else NewlyPending(s.st.queue.value.approvals, s.injected, s.st.deferred)
  }

  function NewMessages(s: State): seq<Entry> {
    if s.st.queue.None? then [] else NewlyPending(s.st.queue.value.messages, s.injected, s.st.deferred)
  }

  /** Queues and contacts as their files read back. */
  function Reread(st: Stores): Stores {
    Stores(map[], {},
      if st.queue.None? then None
      else Some(Queues(JoinEntries(st.queue.value.messages), JoinEntries(st.queue.value.approvals))),
      if st.contacts.None? then None else Some(JoinContacts(st.contacts.value)))
  }

  /** The process ends and starts again on the same files. */
  function AfterRestart(s: State): State {
    State(Reread(s.st), map[], {}, map[], s.issued)
  }

  function Step(cfg: Config, s: State, e: Event): State
    requires Enabled(s, e)
  {
    match e
    case Receive(request, clock, id, now) => AfterReceive(cfg, s, request, clock, id, now)
    case Finish(id, outcome, now) =>
      s.(st := AfterFinish(s.st, id, s.flights[id], outcome, cfg.evaluates, now), flights := s.flights - {id})
    case Approve(agent, tier, now) => s.(st := AfterApprove(s.st, agent, tier, now))
    case Block(agent) => s.(st := AfterBlock(s.st, agent))
    case Respond(id, text) => s.(st := AfterRespond(s.st, id, text))
    case Dismiss(id) => s.(st := AfterDismiss(s.st, id))
    case Defer(id) => s.(st := AfterDefer(s.st, id))
    case Trust(agent, tier) => s.(st := AfterTrust(s.st, agent, tier))
    case AddContact(agent, name, tier, now) => s.(st := AfterAddContact(s.st, agent, name, tier, now))
    case Announce => s.(injected := s.injected + IdsOf(NewApprovals(s)) + IdsOf(NewMessages(s)))
    case Restart => AfterRestart(s)
  }

  // ------------------------------------------------------------------- runs

  function EntryIds(es: seq<Entry>): seq<TaskId> {
    seq(|es|, i requires 0 <= i < |es| => es[i].taskId)
  }

  ghost predicate Unique(ids: seq<TaskId>) {
    forall i, j :: 0 <= i < j < |ids| ==> ids[i] != ids[j]
  }

  function Messages(s: State): seq<Entry> { if s.st.queue.Some? then s.st.queue.value.messages else [] }

  function Approvals(s: State): seq<Entry> { if s.st.queue.Some? then s.st.queue.value.approvals else [] }

  /** Task ids of all queue entries, messages first. */
  function QueuedIds(s: State): seq<TaskId> { EntryIds(Messages(s)) + EntryIds(Approvals(s)) }

  ghost predicate PlainIds(ids: set<TaskId>) {
    forall id :: id in ids ==> PairFree(id)
  }

  /** A process that has just opened its files: they may hold the entries and
      contacts of earlier sessions, one entry per task id. */
  ghost predicate Init(s: State) {
    && s.st.tasks == map[] && s.st.deferred == {} && s.flights == map[] && s.injected == {} && s.seen == map[]
    && Unique(QueuedIds(s))
    && (forall i :: 0 <= i < |QueuedIds(s)| ==> QueuedIds(s)[i] in s.issued)
    && PlainIds(s.issued)
  }

  /** States `tr[0..]` with the events between them. */
  ghost predicate Run(cfg: Config, tr: seq<State>, evs: seq<Event>) {
    && |tr| == |evs| + 1
    && Init(tr[0])
    && (forall i {:trigger Enabled(tr[i], evs[i])} ::
          0 <= i < |evs| ==> Enabled(tr[i], evs[i]) && tr[i + 1] == Step(cfg, tr[i], evs[i]))
  }

  ghost predicate NoRestart(evs: seq<Event>, lo: nat, hi: nat)
    requires lo <= hi <= |evs|
  {
    forall i :: lo <= i < hi ==> !evs[i].Restart?
  }
}
