/** What a restart of the receiver leaves behind: entries whose tasks are gone. */
module Sessions {
  import opened Options
  import opened Contacts
  import opened Pending
  import opened Registry
  import opened Receiver
  import opened Protocol
  import opened Invariant

  /** The request is not refused, and becomes the task `id`. */
  predicate Starts(cfg: Config, s: State, e: Event, id: TaskId) {
    e.Receive? && e.id == id
    && RouteFor(cfg, s, e.request, e.clock).Some? && !RouteFor(cfg, s, e.request, e.clock).value.Refuse?
  }

  /** The task's request came before step `n` and after the last restart. */
  ghost predicate ReceivedSince(cfg: Config, tr: seq<State>, evs: seq<Event>, n: nat, id: TaskId)
    requires n <= |evs| < |tr|
  {
    exists m :: 0 <= m < n && Starts(cfg, tr[m], evs[m], id) && NoRestart(evs, m, n)
  }

  lemma TasksAfterReceive(cfg: Config, s: State, e: Event, id: TaskId)
    requires e.Receive?
    ensures id in AfterReceive(cfg, s, e.request, e.clock, e.id, e.now).st.tasks <==>
            id in s.st.tasks || Starts(cfg, s, e, id)
  {
  }

  lemma TasksAfterOthers(cfg: Config, s: State, e: Event, id: TaskId)
    requires Enabled(s, e) && !e.Receive? && !e.Restart?
    ensures id in Step(cfg, s, e).st.tasks <==> id in s.st.tasks
  {
  }

  lemma TasksAfter(cfg: Config, s: State, e: Event, id: TaskId)
    requires Enabled(s, e)
    ensures id in Step(cfg, s, e).st.tasks <==> !e.Restart? && (id in s.st.tasks || Starts(cfg, s, e, id))
  {
    if e.Receive? {
      TasksAfterReceive(cfg, s, e, id);
    } else if !e.Restart? {
      TasksAfterOthers(cfg, s, e, id);
    }
  }

  lemma NoRestartStep(evs: seq<Event>, m: nat, n: nat)
    requires m <= n < |evs|
    ensures NoRestart(evs, m, n + 1) <==> NoRestart(evs, m, n) && !evs[n].Restart?
  {
  }

  lemma ReceivedStep(cfg: Config, tr: seq<State>, evs: seq<Event>, n: nat, id: TaskId)
    requires n < |evs| < |tr|
    ensures ReceivedSince(cfg, tr, evs, n + 1, id) <==>
            !evs[n].Restart? && (ReceivedSince(cfg, tr, evs, n, id) || Starts(cfg, tr[n], evs[n], id))
  {
    forall m: nat | m <= n ensures NoRestart(evs, m, n + 1) <==> NoRestart(evs, m, n) && !evs[n].Restart? {
      NoRestartStep(evs, m, n);
    }
  }

  /** The registry holds exactly the tasks received since the last restart. */
  lemma {:induction false} TaskIffReceived(cfg: Config, tr: seq<State>, evs: seq<Event>, n: nat, id: TaskId)
    requires Run(cfg, tr, evs) && n < |tr|
    ensures id in tr[n].st.tasks <==> ReceivedSince(cfg, tr, evs, n, id)
    decreases n
  {
    if n > 0 {
      TaskIffReceived(cfg, tr, evs, n - 1, id);
      assert Enabled(tr[n - 1], evs[n - 1]);
      TasksAfter(cfg, tr[n - 1], evs[n - 1], id);
      ReceivedStep(cfg, tr, evs, n - 1, id);
    }
  }

  predicate Shows(s: State, id: TaskId, status: TaskStatus) {
    id in s.st.tasks && s.st.tasks[id].status == status
  }

  /** What a successful respond or dismiss does to task and entry. */
  lemma AnswerEffect(cfg: Config, s: State, e: Event)
    requires e.Respond? || e.Dismiss?
    requires MessageResult(s.st, e.id, e.Respond? ==> e.text != []) == Success
    ensures var s' := Step(cfg, s, e);
            && (e.id in s.st.tasks ==>
                  Shows(s', e.id, if e.Respond? then Completed else Rejected)
                  && (e.Respond? ==> s'.st.tasks[e.id].artifacts == [e.text]))
            && (e.id !in s.st.tasks ==> s'.st.tasks == s.st.tasks)
            && Lookup(Messages(s'), e.id).Some?
            && Lookup(Messages(s'), e.id).value.status == if e.Respond? then Responded else Dismissed
  {
    LookupWithStatus(Messages(s), e.id, if e.Respond? then Responded else Dismissed, e.id);
  }

  /** A respond that reports success completes the task, with its text, if and only
      if the task's request came after the last restart; otherwise only the entry
      changes and the sender is never answered. */
  lemma RespondCompletesExactly(cfg: Config, tr: seq<State>, evs: seq<Event>, n: nat)
    requires Run(cfg, tr, evs) && n < |evs| && evs[n].Respond?
    requires MessageResult(tr[n].st, evs[n].id, evs[n].text != []) == Success
    ensures var id := evs[n].id;
            && (Shows(tr[n + 1], id, Completed) <==> ReceivedSince(cfg, tr, evs, n, id))
            && (id in tr[n + 1].st.tasks ==> tr[n + 1].st.tasks[id].artifacts == [evs[n].text])
            && (!ReceivedSince(cfg, tr, evs, n, id) ==> tr[n + 1].st.tasks == tr[n].st.tasks)
            && Lookup(Messages(tr[n + 1]), id).Some? && Lookup(Messages(tr[n + 1]), id).value.status == Responded
  {
    TaskIffReceived(cfg, tr, evs, n, evs[n].id);
    assert tr[n + 1] == Step(cfg, tr[n], evs[n]);
    AnswerEffect(cfg, tr[n], evs[n]);
  }

  /** So for dismiss and rejection. */
  lemma DismissRejectsExactly(cfg: Config, tr: seq<State>, evs: seq<Event>, n: nat)
    requires Run(cfg, tr, evs) && n < |evs| && evs[n].Dismiss?
    requires MessageResult(tr[n].st, evs[n].id, true) == Success
    ensures var id := evs[n].id;
            && (Shows(tr[n + 1], id, Rejected) <==> ReceivedSince(cfg, tr, evs, n, id))
            && (!ReceivedSince(cfg, tr, evs, n, id) ==> tr[n + 1].st.tasks == tr[n].st.tasks)
            && Lookup(Messages(tr[n + 1]), id).Some? && Lookup(Messages(tr[n + 1]), id).value.status == Dismissed
  {
    TaskIffReceived(cfg, tr, evs, n, evs[n].id);
    assert tr[n + 1] == Step(cfg, tr[n], evs[n]);
    AnswerEffect(cfg, tr[n], evs[n]);
  }

  /** What a successful approve or block does to task and entry of the approval. */
  lemma DecisionEffect(cfg: Config, s: State, e: Event, a: Entry)
    requires (e.Approve? || e.Block?) && ApproveResult(s.st, e.agent) == Success && Unique(QueuedIds(s))
    requires a == PendingApproval(s.st.queue.value, e.agent).value
    ensures var s' := Step(cfg, s, e);
            && (a.taskId in s.st.tasks ==> Shows(s', a.taskId, if e.Approve? then Completed else Failed))
            && (a.taskId !in s.st.tasks ==> s'.st.tasks == s.st.tasks)
            && Lookup(Approvals(s'), a.taskId) == Some(a.(status := if e.Approve? then Approved else Blocked))
  {
    PendingApprovalFound(s, e.agent);
    LookupWithStatus(Approvals(s), a.taskId, if e.Approve? then Approved else Blocked, a.taskId);
  }

  /** An approve that reports success completes the task that asked for the contact
      if and only if its request came after the last restart; otherwise only entry
      and contact change. */
  lemma ApproveCompletesExactly(cfg: Config, tr: seq<State>, evs: seq<Event>, n: nat)
    requires Run(cfg, tr, evs) && n < |evs| && evs[n].Approve? && ApproveResult(tr[n].st, evs[n].agent) == Success
    ensures var a := PendingApproval(tr[n].st.queue.value, evs[n].agent).value;
            && (Shows(tr[n + 1], a.taskId, Completed) <==> ReceivedSince(cfg, tr, evs, n, a.taskId))
            && (!ReceivedSince(cfg, tr, evs, n, a.taskId) ==> tr[n + 1].st.tasks == tr[n].st.tasks)
            && Lookup(Approvals(tr[n + 1]), a.taskId) == Some(a.(status := Approved))
            && tr[n + 1].st.contacts == Some(WithContact(tr[n].st.contacts.value, a.senderUrl, a.senderName,
                                                         evs[n].tier, evs[n].now))
  {
    var a := PendingApproval(tr[n].st.queue.value, evs[n].agent).value;
    RunInv(cfg, tr, evs, n);
    TaskIffReceived(cfg, tr, evs, n, a.taskId);
    assert Enabled(tr[n], evs[n]);
    DecisionEffect(cfg, tr[n], evs[n], a);
  }

  /** So for block and failure; no contact changes. */
  lemma BlockFailsExactly(cfg: Config, tr: seq<State>, evs: seq<Event>, n: nat)
    requires Run(cfg, tr, evs) && n < |evs| && evs[n].Block? && ApproveResult(tr[n].st, evs[n].agent) == Success
    ensures var a := PendingApproval(tr[n].st.queue.value, evs[n].agent).value;
            && (Shows(tr[n + 1], a.taskId, Failed) <==> ReceivedSince(cfg, tr, evs, n, a.taskId))
            && (!ReceivedSince(cfg, tr, evs, n, a.taskId) ==> tr[n + 1].st.tasks == tr[n].st.tasks)
            && Lookup(Approvals(tr[n + 1]), a.taskId) == Some(a.(status := Blocked))
            && tr[n + 1].st.contacts == tr[n].st.contacts
  {
    var a := PendingApproval(tr[n].st.queue.value, evs[n].agent).value;
    RunInv(cfg, tr, evs, n);
    TaskIffReceived(cfg, tr, evs, n, a.taskId);
    assert Enabled(tr[n], evs[n]);
    DecisionEffect(cfg, tr[n], evs[n], a);
  }
}
