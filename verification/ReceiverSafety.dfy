/** What holds of the receiver in every reachable state and along every run. */
module ReceiverSafety {
  import opened Options
  import opened Json
  import opened Pending
  import opened Registry
  import opened Receiver
  import opened Protocol
  import opened Invariant

  // ------------------------------------------------------- waiting, attributed

  /** No waiting task is orphaned: an INPUT_REQUIRED task has exactly one entry
      across both queues, still pending or deferred. */
  lemma NoOrphans(cfg: Config, tr: seq<State>, evs: seq<Event>, n: nat, id: TaskId)
    requires Run(cfg, tr, evs) && n < |tr| && tr[n].st.queue.Some?
    requires id in tr[n].st.tasks && tr[n].st.tasks[id].status == InputRequired
    ensures multiset(QueuedIds(tr[n]))[id] == 1
    ensures exists e :: (e in Messages(tr[n]) || e in Approvals(tr[n])) && e.taskId == id
                        && (e.status == Pending || e.status == Deferred)
  {
    var s := tr[n];
    RunInv(cfg, tr, evs, n);
    assert ViewOk(true, ViewOf(s, id));
    QueuedMember(s, id);
    CountedOnce(QueuedIds(s), id);
    var e := if Lookup(Messages(s), id).Some? then Lookup(Messages(s), id).value else Lookup(Approvals(s), id).value;
    assert e in Messages(s) || e in Approvals(s);
  }

  lemma CountedOnce(ids: seq<TaskId>, id: TaskId)
    requires Unique(ids) && id in ids
    ensures multiset(ids)[id] == 1
  {
    var i :| 0 <= i < |ids| && ids[i] == id;
    assert ids == ids[..i] + [id] + ids[i + 1..];
    assert id !in ids[..i] && id !in ids[i + 1..];
  }

  /** Entry status and task status agree whenever the task is in the registry. */
  lemma EntriesTellTheTruth(cfg: Config, tr: seq<State>, evs: seq<Event>, n: nat, e: Entry)
    requires Run(cfg, tr, evs) && n < |tr| && e.taskId in tr[n].st.tasks
    requires e in Messages(tr[n]) || e in Approvals(tr[n])
    ensures var t := tr[n].st.tasks[e.taskId];
            && (e.status == Pending ==> t.status == InputRequired && Pristine(t))
            && (e.status == Responded ==> t.status == Completed)
            && (e.status == Dismissed ==> t.status == Rejected)
            && (e.status == Approved ==> t.status == Completed)
            && (e.status == Blocked ==> t.status == Failed)
  {
    var s := tr[n];
    RunInv(cfg, tr, evs, n);
    UniqueParts(s);
    if e in Messages(s) {
      LookupMember(Messages(s), e);
    } else {
      LookupMember(Approvals(s), e);
    }
    assert ViewOk(true, ViewOf(s, e.taskId));
  }

  /** The message entry of a task, when it has one. */
  function MessageEntry(s: State, id: TaskId): Option<Entry> { Lookup(Messages(s), id) }

  /** Attribution says how a task was answered, in every state of every run, also
      after repeated respond, dismiss and defer. */
  lemma AttributionTellsTheTruth(cfg: Config, tr: seq<State>, evs: seq<Event>, n: nat, id: TaskId)
    requires Run(cfg, tr, evs) && n < |tr| && tr[n].st.queue.Some? && id in tr[n].st.tasks
    ensures var t, m := tr[n].st.tasks[id], MessageEntry(tr[n], id);
            && (t.attribution == Some(Autonomous) <==> t.status == Completed && id !in QueuedIds(tr[n]))
            && (t.attribution == Some(EscalatedUserResponse) <==>
                  t.status == Completed && m.Some? && m.value.escalated == Some(true))
            && (t.attribution == Some(UserResponse) <==>
                  t.status == Completed && m.Some? && m.value.escalated != Some(true))
            && (t.attribution == Some(DismissedByUser) <==> t.status == Rejected)
            && (t.attribution == None <==>
                  !Terminal(t.status) || t.status == Failed || Lookup(Approvals(tr[n]), id).Some?)
  {
    RunInv(cfg, tr, evs, n);
    assert ViewOk(true, ViewOf(tr[n], id));
    QueuedMember(tr[n], id);
  }

  // -------------------------------------------------- how one task can change

  /** Tasks nobody changes any more: FAILED, answered autonomously, or belonging
      to a decided approval. */
  predicate Settled(s: State, id: TaskId)
    requires id in s.st.tasks
  {
    var t := s.st.tasks[id];
    || t.status == Failed
    || (t.status == Completed && t.attribution == Some(Autonomous))
    || (Lookup(Approvals(s), id).Some? && Lookup(Approvals(s), id).value.status != Pending)
  }

  /** The task has a pending approval entry of this sender. */
  predicate AwaitsDecision(s: State, id: TaskId, agent: Str) {
    var a := Lookup(Approvals(s), id);
    a.Some? && a.value.status == Pending && a.value.senderUrl == agent
  }

  /** Who can change the task `id` in one step. */
  ghost predicate MayChange(s: State, e: Event, id: TaskId)
    requires id in s.st.tasks
  {
    match e
    case Finish(k, _, _) => k == id && s.st.tasks[id].status == Working
    case Approve(agent, _, _) => AwaitsDecision(s, id, agent)
    case Block(agent) => AwaitsDecision(s, id, agent)
    case Respond(k, _) => k == id && Lookup(Messages(s), id).Some?
    case Dismiss(k) => k == id && Lookup(Messages(s), id).Some?
    case _ => false
  }

  lemma RequestTouches(cfg: Config, s: State, e: Event, id: TaskId)
    requires Inv(s) && Enabled(s, e) && (e.Receive? || e.Finish?) && id in s.st.tasks
    ensures id in Step(cfg, s, e).st.tasks
    ensures Step(cfg, s, e).st.tasks[id] != s.st.tasks[id] ==> MayChange(s, e, id)
  {
    if e.Receive? {
      assert ViewOk(s.st.queue.Some?, ViewOf(s, id));
      ReceiveKeeps(cfg, s, e.request, e.clock, e.id, e.now);
      assert ViewOf(Step(cfg, s, e), id) == ViewOf(s, id);
    } else {
      assert ViewOk(s.st.queue.Some?, ViewOf(s, e.id));
    }
  }

  lemma DecisionTouches(cfg: Config, s: State, e: Event, id: TaskId)
    requires Inv(s) && (e.Approve? || e.Block?) && id in s.st.tasks
    ensures id in Step(cfg, s, e).st.tasks
    ensures Step(cfg, s, e).st.tasks[id] != s.st.tasks[id] ==>
              MayChange(s, e, id) && Terminal(Step(cfg, s, e).st.tasks[id].status)
  {
    if ApproveResult(s.st, e.agent) == Success {
      PendingApprovalFound(s, e.agent);
    }
  }

  /** Every change of a task, short of a restart, comes from its own Mode C
      finish, a decision on its pending approval, or an answer to its message;
      answers and decisions leave it in a terminal state. */
  lemma OnlyItsOwnSteps(cfg: Config, s: State, e: Event, id: TaskId)
    requires Inv(s) && Enabled(s, e) && !e.Restart? && id in s.st.tasks
    ensures id in Step(cfg, s, e).st.tasks
    ensures Step(cfg, s, e).st.tasks[id] != s.st.tasks[id] ==>
              MayChange(s, e, id) && (!e.Finish? ==> Terminal(Step(cfg, s, e).st.tasks[id].status))
  {
    match e
    case Receive(_, _, k, _) =>
      RequestTouches(cfg, s, e, id);
      assert !MayChange(s, e, id);
    case Finish(_, _, _) => RequestTouches(cfg, s, e, id);
    case Approve(_, _, _) => DecisionTouches(cfg, s, e, id);
    case Block(_) => DecisionTouches(cfg, s, e, id);
    case _ =>
  }

  /** An approval entry once decided stays as it is. */
  lemma DecidedApprovalStays(cfg: Config, s: State, e: Event, id: TaskId)
    requires Inv(s) && Enabled(s, e) && !e.Restart?
    requires Lookup(Approvals(s), id).Some? && Lookup(Approvals(s), id).value.status != Pending
    ensures Lookup(Approvals(Step(cfg, s, e)), id) == Lookup(Approvals(s), id)
  {
    match e
    case Receive(request, clock, k, now) =>
      assert ViewOk(s.st.queue.Some?, ViewOf(s, k)) && ViewOk(s.st.queue.Some?, ViewOf(s, id));
      ReceiveKeeps(cfg, s, request, clock, k, now);
      assert ViewOf(Step(cfg, s, e), id) == ViewOf(s, id);
    case Approve(agent, _, _) =>
      if ApproveResult(s.st, agent) == Success {
        PendingApprovalFound(s, agent);
        LookupWithStatus(Approvals(s), PendingApproval(s.st.queue.value, agent).value.taskId, Approved, id);
      }
    case Block(agent) =>
      if ApproveResult(s.st, agent) == Success {
        PendingApprovalFound(s, agent);
        LookupWithStatus(Approvals(s), PendingApproval(s.st.queue.value, agent).value.taskId, Blocked, id);
      }
    case _ =>
  }

  lemma SettledStays(cfg: Config, s: State, e: Event, id: TaskId)
    requires Inv(s) && Enabled(s, e) && !e.Restart? && id in s.st.tasks && Settled(s, id)
    ensures id in Step(cfg, s, e).st.tasks && Step(cfg, s, e).st.tasks[id] == s.st.tasks[id]
    ensures Settled(Step(cfg, s, e), id)
  {
    assert ViewOk(s.st.queue.Some?, ViewOf(s, id));
    OnlyItsOwnSteps(cfg, s, e, id);
    if Lookup(Approvals(s), id).Some? && Lookup(Approvals(s), id).value.status != Pending {
      DecidedApprovalStays(cfg, s, e, id);
    }
  }

  lemma TerminalStays(cfg: Config, s: State, e: Event, id: TaskId)
    requires Inv(s) && Enabled(s, e) && !e.Restart? && id in s.st.tasks && Terminal(s.st.tasks[id].status)
    ensures id in Step(cfg, s, e).st.tasks && Terminal(Step(cfg, s, e).st.tasks[id].status)
  {
    OnlyItsOwnSteps(cfg, s, e, id);
  }

  /** The set of terminal states is closed along every stretch of a run without
      a restart. */
  lemma {:induction false} TerminalIsClosed(cfg: Config, tr: seq<State>, evs: seq<Event>, m: nat, n: nat, id: TaskId)
    requires Run(cfg, tr, evs) && m <= n < |tr| && NoRestart(evs, m, n)
    requires id in tr[m].st.tasks && Terminal(tr[m].st.tasks[id].status)
    ensures id in tr[n].st.tasks && Terminal(tr[n].st.tasks[id].status)
    decreases n
  {
    if m < n {
      TerminalIsClosed(cfg, tr, evs, m, n - 1, id);
      RunInv(cfg, tr, evs, n - 1);
      TerminalStays(cfg, tr[n - 1], evs[n - 1], id);
    }
  }

  /** A task that failed, was answered autonomously, or whose approval was decided
      never changes again before a restart. */
  lemma {:induction false} SettledNeverChanges(cfg: Config, tr: seq<State>, evs: seq<Event>, m: nat, n: nat, id: TaskId)
    requires Run(cfg, tr, evs) && m <= n < |tr| && NoRestart(evs, m, n)
    requires id in tr[m].st.tasks && Settled(tr[m], id)
    ensures id in tr[n].st.tasks && tr[n].st.tasks[id] == tr[m].st.tasks[id] && Settled(tr[n], id)
    decreases n
  {
    if m < n {
      SettledNeverChanges(cfg, tr, evs, m, n - 1, id);
      RunInv(cfg, tr, evs, n - 1);
      SettledStays(cfg, tr[n - 1], evs[n - 1], id);
    }
  }

  /** A WORKING task belongs to a suspended request and has no entry. */
  lemma WorkingIsSuspended(cfg: Config, tr: seq<State>, evs: seq<Event>, n: nat, id: TaskId)
    requires Run(cfg, tr, evs) && n < |tr| && id in tr[n].st.tasks
    ensures tr[n].st.tasks[id].status == Working <==> id in tr[n].flights
    ensures id in tr[n].flights ==> id !in QueuedIds(tr[n])
  {
    RunInv(cfg, tr, evs, n);
    assert ViewOk(tr[n].st.queue.Some?, ViewOf(tr[n], id));
    QueuedMember(tr[n], id);
  }

  lemma WorkingStays(cfg: Config, s: State, e: Event, id: TaskId)
    requires Inv(s) && Enabled(s, e) && !e.Restart? && !(e.Finish? && e.id == id)
    requires id in s.st.tasks && id in s.flights
    ensures var s' := Step(cfg, s, e);
            && id in s'.st.tasks && s'.st.tasks[id] == s.st.tasks[id]
            && id in s'.flights && s'.flights[id] == s.flights[id]
  {
    assert ViewOk(s.st.queue.Some?, ViewOf(s, id));
    OnlyItsOwnSteps(cfg, s, e, id);
  }

  /** Mode C owns its task: from start to finish no step but the finish itself, or
      a restart, touches the task or what the request carries. */
  lemma {:induction false} ModeCOwnsItsTask(cfg: Config, tr: seq<State>, evs: seq<Event>, m: nat, n: nat, id: TaskId)
    requires Run(cfg, tr, evs) && m <= n < |tr| && NoRestart(evs, m, n)
    requires id in tr[m].st.tasks && id in tr[m].flights
    requires forall i :: m <= i < n ==> !(evs[i].Finish? && evs[i].id == id)
    ensures id in tr[n].st.tasks && tr[n].st.tasks[id] == tr[m].st.tasks[id]
    ensures id in tr[n].flights && tr[n].flights[id] == tr[m].flights[id]
    decreases n
  {
    if m < n {
      ModeCOwnsItsTask(cfg, tr, evs, m, n - 1, id);
      RunInv(cfg, tr, evs, n - 1);
      WorkingStays(cfg, tr[n - 1], evs[n - 1], id);
    }
  }
}
