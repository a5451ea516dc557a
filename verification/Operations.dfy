/** The user's operations: when each succeeds, and all that it changes, told by the
    positions of entries, contacts and tasks. */
module Operations {
  import opened Options
  import opened Json
  import opened Contacts
  import opened Pending
  import opened Registry
  import opened Receiver
  import opened Protocol
  import opened Invariant
  import Routing
  import Announcements

  // ------------------------------------------------------------ when it succeeds

  predicate IsOperation(e: Event) {
    e.Approve? || e.Block? || e.Respond? || e.Dismiss? || e.Defer? || e.Trust? || e.AddContact?
  }

  /** Both stores are attached. */
  predicate Ready(s: State) { s.st.queue.Some? && s.st.contacts.Some? }

  ghost predicate Has(es: seq<Entry>, id: TaskId) { exists i :: 0 <= i < |es| && es[i].taskId == id }

  predicate IsAsking(e: Entry, url: Str) { e.status == Pending && e.senderUrl == url }

  /** Some entry of this sender is pending. */
  ghost predicate Asks(es: seq<Entry>, url: Str) { exists i :: 0 <= i < |es| && IsAsking(es[i], url) }

  /** Position `i` holds the oldest pending entry of this sender. */
  predicate IsOldestAsking(es: seq<Entry>, url: Str, i: nat) {
    i < |es| && IsAsking(es[i], url) && forall j :: 0 <= j < i ==> !IsAsking(es[j], url)
  }

  /** Position `i` holds the oldest contact of this URL. */
  predicate IsOldestContact(cs: seq<Contact>, url: Str, i: nat) {
    i < |cs| && cs[i].url == url && forall j :: 0 <= j < i ==> cs[j].url != url
  }

  predicate LacksArgument(e: Event)
    requires IsOperation(e)
  {
    match e
    case Approve(agent, _, _) => agent == []
    case Block(agent) => agent == []
    case Respond(id, text) => id == [] || text == []
    case Dismiss(id) => id == []
    case Defer(id) => id == []
    case Trust(agent, tier) => agent == [] || tier == []
    case AddContact(agent, _, _, _) => agent == []
  }

  /** What the operation is about is there. */
  ghost predicate HasSubject(s: State, e: Event)
    requires IsOperation(e) && Ready(s)
  {
    match e
    case Approve(agent, _, _) => Asks(Approvals(s), agent)
    case Block(agent) => Asks(Approvals(s), agent)
    case Respond(id, _) => Has(Messages(s), id)
    case Dismiss(id) => Has(Messages(s), id)
    case Defer(id) => Has(Messages(s), id)
    case Trust(agent, _) => !Routing.Unknown(s.st.contacts.value, agent)
    case AddContact(_, _, _, _) => true
  }

  ghost predicate Applies(s: State, e: Event) {
    IsOperation(e) && Ready(s) && !LacksArgument(e) && HasSubject(s, e)
  }

  function ResultAt(s: State, e: Event): OpResult
    requires IsOperation(e)
  {
    match e
    case Approve(agent, _, _) => ApproveResult(s.st, agent)
    case Block(agent) => ApproveResult(s.st, agent)
    case Respond(id, text) => MessageResult(s.st, id, text != [])
    case Dismiss(id) => MessageResult(s.st, id, true)
    case Defer(id) => DeferResult(s.st, id)
    case Trust(agent, tier) => TrustResult(s.st, agent, tier)
    case AddContact(agent, _, _, _) => AddContactResult(s.st, agent)
  }

  lemma {:induction false} OldestAskingIsFirst(es: seq<Entry>, url: Str, i: nat)
    requires IsOldestAsking(es, url, i)
    ensures FirstFrom(PendingOf(es), url) == Some(es[i])
    decreases |es|
  {
    var tail := PendingOf(es[1..]);
    if i == 0 {
      assert PendingOf(es) == [es[0]] + tail;
    } else {
      OldestAskingIsFirst(es[1..], url, i - 1);
      assert !IsAsking(es[0], url);
      assert PendingOf(es) == if es[0].status == Pending then [es[0]] + tail else tail;
    }
  }

  lemma FirstAsking(es: seq<Entry>, url: Str) returns (i: nat)
    requires Asks(es, url)
    ensures IsOldestAsking(es, url, i)
  {
    i := FirstIndex(es, (e: Entry) => IsAsking(e, url));
  }

  /** approve and block act on the oldest pending entry of the sender. */
  lemma OldestAskingFound(es: seq<Entry>, url: Str)
    ensures FirstFrom(PendingOf(es), url).Some? <==> Asks(es, url)
    ensures forall i: nat :: IsOldestAsking(es, url, i) ==> FirstFrom(PendingOf(es), url) == Some(es[i])
  {
    if Asks(es, url) {
      var i := FirstAsking(es, url);
      OldestAskingIsFirst(es, url, i);
    } else if FirstFrom(PendingOf(es), url).Some? {
      FirstFromMember(PendingOf(es), url);
      PendingMember(es, FirstFrom(PendingOf(es), url).value);
    }
    forall i: nat | IsOldestAsking(es, url, i) ensures FirstFrom(PendingOf(es), url) == Some(es[i]) {
      OldestAskingIsFirst(es, url, i);
    }
  }

  lemma SubjectFound(s: State, e: Event)
    requires IsOperation(e) && Ready(s) && !LacksArgument(e)
    ensures ResultAt(s, e) == if HasSubject(s, e) then Success else NotFound
  {
    if e.Approve? || e.Block? {
      OldestAskingFound(Approvals(s), e.agent);
    } else if e.Trust? {
      Routing.FindMeans(s.st.contacts.value, e.agent, []);
    }
  }

  /** An operation succeeds exactly when both stores are attached, its arguments are
      given and what it is about is there; otherwise it names the first of these that
      is missing (defer and add_contact look at their argument first), and changes
      nothing. */
  lemma ResultExactly(cfg: Config, s: State, e: Event)
    requires IsOperation(e)
    ensures ResultAt(s, e) ==
            if LacksArgument(e) && (e.Defer? || e.AddContact?) then ArgumentMissing
            else if !Ready(s) then StoresMissing
            else if LacksArgument(e) then ArgumentMissing
            else if !HasSubject(s, e) then NotFound
            else Success
    ensures !Applies(s, e) ==> Step(cfg, s, e) == s
  {
    if Ready(s) && !LacksArgument(e) {
      SubjectFound(s, e);
    }
  }

  // ------------------------------------------------------------- what it changes

  /** The task, if it is still in the registry, in its new form. */
  function Changed(tasks: Tasks, id: TaskId, form: Task -> Task): Tasks {
    if id in tasks then tasks[id := form(tasks[id])] else tasks
  }

  function WithEntry(es: seq<Entry>, i: nat, status: EntryStatus): seq<Entry>
    requires i < |es|
  {
    es[i := es[i].(status := status)]
  }

  lemma OnlyPosition(es: seq<Entry>, i: nat)
    requires i < |es| && Unique(EntryIds(es))
    ensures IndexOf(es, es[i].taskId) == i
  {
    var j := IndexOf(es, es[i].taskId);
    assert EntryIds(es)[j] == es[i].taskId && EntryIds(es)[i] == es[i].taskId;
  }

  /** respond: the entry is responded; the task, if the process still has it, is
      completed with the text, attributed to the user, as escalated if it was, and
      keeps its error. */
  lemma RespondEffect(cfg: Config, s: State, e: Event, i: nat)
    requires Inv(s) && e.Respond? && Applies(s, e) && i < |Messages(s)| && Messages(s)[i].taskId == e.id
    ensures Step(cfg, s, e) == s.(st := s.st.(
              queue := Some(Queues(WithEntry(Messages(s), i, Responded), Approvals(s))),
              tasks := Changed(s.st.tasks, e.id, (t: Task) => t.(
                status := Completed, artifacts := [e.text],
                attribution := Some(if Messages(s)[i].escalated == Some(true) then EscalatedUserResponse
                                    else UserResponse)))))
  {
    UniqueParts(s);
    OnlyPosition(Messages(s), i);
    ResultExactly(cfg, s, e);
  }

  /** dismiss: the entry is dismissed; the task, if still there, is rejected with the
      fixed error text and keeps its artifacts. */
  lemma DismissEffect(cfg: Config, s: State, e: Event, i: nat)
    requires Inv(s) && e.Dismiss? && Applies(s, e) && i < |Messages(s)| && Messages(s)[i].taskId == e.id
    ensures Step(cfg, s, e) == s.(st := s.st.(
              queue := Some(Queues(WithEntry(Messages(s), i, Dismissed), Approvals(s))),
              tasks := Changed(s.st.tasks, e.id, (t: Task) => t.(
                status := Rejected, error := Some(Lit("Dismissed by user")), attribution := Some(DismissedByUser)))))
  {
    UniqueParts(s);
    OnlyPosition(Messages(s), i);
    ResultExactly(cfg, s, e);
  }

  /** defer: the entry is deferred and its id noted; no task changes. */
  lemma DeferEffect(cfg: Config, s: State, e: Event, i: nat)
    requires Inv(s) && e.Defer? && Applies(s, e) && i < |Messages(s)| && Messages(s)[i].taskId == e.id
    ensures Step(cfg, s, e) == s.(st := s.st.(
              queue := Some(Queues(WithEntry(Messages(s), i, Deferred), Approvals(s))),
              deferred := s.st.deferred + {e.id}))
  {
    UniqueParts(s);
    OnlyPosition(Messages(s), i);
    ResultExactly(cfg, s, e);
  }

  lemma AskingPosition(s: State, url: Str, i: nat)
    requires Inv(s) && s.st.queue.Some? && IsOldestAsking(Approvals(s), url, i)
    ensures PendingApproval(s.st.queue.value, url) == Some(Approvals(s)[i])
    ensures IndexOf(Approvals(s), Approvals(s)[i].taskId) == i
  {
    UniqueParts(s);
    OnlyPosition(Approvals(s), i);
    OldestAskingFound(Approvals(s), url);
  }

  /** approve: the oldest pending entry of the sender is approved, its sender becomes
      the youngest contact, and its task, if still there, is completed with a text that
      names the sender. */
  lemma ApproveEffect(cfg: Config, s: State, e: Event, i: nat)
    requires Inv(s) && e.Approve? && Applies(s, e) && IsOldestAsking(Approvals(s), e.agent, i)
    ensures var a := Approvals(s)[i];
            Step(cfg, s, e) == s.(st := s.st.(
              contacts := Some(s.st.contacts.value + [Contact(e.agent, a.senderName, e.tier, e.now, e.now)]),
              queue := Some(Queues(Messages(s), WithEntry(Approvals(s), i, Approved))),
              tasks := Changed(s.st.tasks, a.taskId, (t: Task) => t.(
                status := Completed, artifacts := [
                  Lit("Contact ") + a.senderName + Lit(" approved. The sender can now send messages.")]))))
  {
    AskingPosition(s, e.agent, i);
    ResultExactly(cfg, s, e);
  }

  /** block: the same entry is blocked, and its task failed; no contact changes. */
  lemma BlockEffect(cfg: Config, s: State, e: Event, i: nat)
    requires Inv(s) && e.Block? && Applies(s, e) && IsOldestAsking(Approvals(s), e.agent, i)
    ensures var a := Approvals(s)[i];
            Step(cfg, s, e) == s.(st := s.st.(
              queue := Some(Queues(Messages(s), WithEntry(Approvals(s), i, Blocked))),
              tasks := Changed(s.st.tasks, a.taskId, (t: Task) => t.(
                status := Failed,
                error := Some(Lit("Contact request from ") + a.senderName + Lit(" was blocked."))))))
  {
    AskingPosition(s, e.agent, i);
    ResultExactly(cfg, s, e);
  }

  /** trust changes the tier of the oldest contact of the URL and nothing else;
      add_contact appends one. */
  lemma ContactEffect(cfg: Config, s: State, e: Event)
    requires Applies(s, e)
    ensures e.Trust? ==>
              forall i: nat :: IsOldestContact(s.st.contacts.value, e.agent, i) ==>
                var cs := s.st.contacts.value;
                Step(cfg, s, e) == s.(st := s.st.(contacts := Some(cs[i := cs[i].(tier := e.tier)])))
    ensures e.AddContact? ==>
              Step(cfg, s, e) == s.(st := s.st.(
                contacts := Some(s.st.contacts.value + [Contact(e.agent, e.name, e.tier, e.now, e.now)])))
  {
    ResultExactly(cfg, s, e);
    if e.Trust? {
      var cs := s.st.contacts.value;
      forall i: nat | IsOldestContact(cs, e.agent, i) ensures Find(cs, e.agent) == i {
      }
    }
  }

  // -------------------------------------------------------------------- over runs

  lemma AnsweredIsSettled(cfg: Config, s: State, e: Event)
    requires Inv(s) && (e.Respond? || e.Dismiss? || e.Defer?) && ResultAt(s, e) == Success
    ensures Announcements.HasSettled(Messages(Step(cfg, s, e)), e.id)
  {
    ResultExactly(cfg, s, e);
    var i :| 0 <= i < |Messages(s)| && Messages(s)[i].taskId == e.id;
    var status := match e case Respond(_, _) => Responded case Dismiss(_) => Dismissed case _ => Deferred;
    LookupWithStatus(Messages(s), e.id, status, e.id);
    UniqueParts(s);
    OnlyPosition(Messages(s), i);
    if e.Respond? {
      RespondEffect(cfg, s, e, i);
    } else if e.Dismiss? {
      DismissEffect(cfg, s, e, i);
    } else {
      DeferEffect(cfg, s, e, i);
    }
  }

  /** A message that was deferred, answered or dismissed with success is in no later
      payload, not even after a restart. */
  lemma AnsweredNeverAnnounced(cfg: Config, tr: seq<State>, evs: seq<Event>, m: nat, n: nat)
    requires Run(cfg, tr, evs) && m < n < |evs|
    requires (evs[m].Respond? || evs[m].Dismiss? || evs[m].Defer?) && ResultAt(tr[m], evs[m]) == Success
    ensures evs[m].id !in Announcements.Payload(tr[n], evs[n])
  {
    RunInv(cfg, tr, evs, m);
    assert Enabled(tr[m], evs[m]);
    AnsweredIsSettled(cfg, tr[m], evs[m]);
    Announcements.NeverAnnouncedLater(cfg, tr, evs, m + 1, n, evs[m].id);
  }

  /** In every run, a defer that reports success changes the one entry and the deferred
      ids, no task, contact or other entry, and its id is in no payload from then on. */
  lemma DeferredStaysQuiet(cfg: Config, tr: seq<State>, evs: seq<Event>, m: nat, i: nat)
    requires Run(cfg, tr, evs) && m < |evs| && evs[m].Defer? && DeferResult(tr[m].st, evs[m].id) == Success
    requires i < |Messages(tr[m])| && Messages(tr[m])[i].taskId == evs[m].id
    ensures tr[m + 1] == tr[m].(st := tr[m].st.(
              queue := Some(Queues(WithEntry(Messages(tr[m]), i, Deferred), Approvals(tr[m]))),
              deferred := tr[m].st.deferred + {evs[m].id}))
    ensures forall n :: m < n < |evs| ==> evs[m].id !in Announcements.Payload(tr[n], evs[n])
  {
    RunInv(cfg, tr, evs, m);
    ResultExactly(cfg, tr[m], evs[m]);
    assert Enabled(tr[m], evs[m]);
    DeferEffect(cfg, tr[m], evs[m], i);
    forall n | m < n < |evs| ensures evs[m].id !in Announcements.Payload(tr[n], evs[n]) {
      AnsweredNeverAnnounced(cfg, tr, evs, m, n);
    }
  }
}
