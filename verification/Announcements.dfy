/** What the injection handler announces to the session, over whole runs. */
module Announcements {
  import opened Options
  import opened Pending
  import opened Receiver
  import opened Protocol
  import opened Invariant

  /** Task ids in the payload of this step, approvals first. */
  function Payload(s: State, e: Event): seq<TaskId> {
    if e.Announce? then EntryIds(NewApprovals(s)) + EntryIds(NewMessages(s)) else []
  }

  function IdSet(ids: seq<TaskId>): set<TaskId> {
    set id | id in ids
  }

  /** The id is in a payload of the steps lo..hi. */
  ghost predicate AnnouncedIn(tr: seq<State>, evs: seq<Event>, lo: nat, hi: nat, id: TaskId)
    requires lo <= hi <= |evs| < |tr|
  {
    exists i :: lo <= i < hi && id in Payload(tr[i], evs[i])
  }

  ghost predicate IsPending(s: State, id: TaskId) {
    exists e :: (e in Messages(s) || e in Approvals(s)) && e.taskId == id && e.status == Pending
  }

  lemma {:induction false} NewlyPendingMember(es: seq<Entry>, injected: set<TaskId>, deferred: set<TaskId>, e: Entry)
    ensures e in NewlyPending(es, injected, deferred) <==>
            e in es && e.status == Pending && e.taskId !in injected && e.taskId !in deferred
    decreases |es|
  {
    if es != [] {
      NewlyPendingMember(es[1..], injected, deferred, e);
      assert es == [es[0]] + es[1..];
    }
  }

  lemma PayloadMember(s: State, id: TaskId)
    ensures id in Payload(s, Announce) <==>
            exists e :: (e in NewApprovals(s) || e in NewMessages(s)) && e.taskId == id
  {
    var a, m := NewApprovals(s), NewMessages(s);
    assert forall i :: 0 <= i < |a| ==> EntryIds(a)[i] == a[i].taskId;
    assert forall i :: 0 <= i < |m| ==> EntryIds(m)[i] == m[i].taskId;
    if e :| (e in a || e in m) && e.taskId == id {
      if e in a {
        var i :| 0 <= i < |a| && a[i] == e;
        assert EntryIds(a)[i] == id;
      } else {
        var i :| 0 <= i < |m| && m[i] == e;
        assert EntryIds(m)[i] == id;
      }
    }
  }

  /** One call announces the pending items not announced before in the session:
      the deferred-ids filter takes nothing more away. */
  lemma PayloadIsPending(s: State, id: TaskId)
    requires Inv(s)
    ensures id in Payload(s, Announce) <==> IsPending(s, id) && id !in s.injected
  {
    PayloadMember(s, id);
    forall e ensures (e in NewApprovals(s) <==> e in Approvals(s) && e.status == Pending
                                                && e.taskId !in s.injected && e.taskId !in s.st.deferred)
                  && (e in NewMessages(s) <==> e in Messages(s) && e.status == Pending
                                               && e.taskId !in s.injected && e.taskId !in s.st.deferred)
    {
      NewlyPendingMember(Approvals(s), s.injected, s.st.deferred, e);
      NewlyPendingMember(Messages(s), s.injected, s.st.deferred, e);
    }
    forall e | (e in Messages(s) || e in Approvals(s)) && e.status == Pending ensures e.taskId !in s.st.deferred {
      PendingNotDeferred(s, e);
    }
  }

  lemma PendingNotDeferred(s: State, e: Entry)
    requires Inv(s) && (e in Messages(s) || e in Approvals(s)) && e.status == Pending
    ensures e.taskId !in s.st.deferred
  {
    UniqueParts(s);
    if e in Messages(s) {
      LookupMember(Messages(s), e);
    } else {
      LookupMember(Approvals(s), e);
    }
    assert ViewOk(s.st.queue.Some?, ViewOf(s, e.taskId));
  }

  lemma {:induction false} FilterRedundant(es: seq<Entry>, injected: set<TaskId>, deferred: set<TaskId>)
    requires forall e :: e in es && e.status == Pending ==> e.taskId !in deferred
    ensures NewlyPending(es, injected, deferred) == NewlyPending(es, injected, {})
    decreases |es|
  {
    if es != [] {
      FilterRedundant(es[1..], injected, deferred);
    }
  }

  /** In every reachable state the handler's output is the same with and without
      the check against deferred_ids, whose ids are all of message entries that
      are no longer pending. */
  lemma DeferredFilterIsRedundant(cfg: Config, tr: seq<State>, evs: seq<Event>, n: nat)
    requires Run(cfg, tr, evs) && n < |tr|
    ensures NewApprovals(tr[n]) == NewlyPending(Approvals(tr[n]), tr[n].injected, {})
    ensures NewMessages(tr[n]) == NewlyPending(Messages(tr[n]), tr[n].injected, {})
    ensures forall id :: id in tr[n].st.deferred ==>
              && Lookup(Messages(tr[n]), id).Some? && Lookup(Messages(tr[n]), id).value.status != Pending
              && Lookup(Approvals(tr[n]), id) == None
  {
    var s := tr[n];
    RunInv(cfg, tr, evs, n);
    forall e | (e in Messages(s) || e in Approvals(s)) && e.status == Pending ensures e.taskId !in s.st.deferred {
      PendingNotDeferred(s, e);
    }
    FilterRedundant(Approvals(s), s.injected, s.st.deferred);
    FilterRedundant(Messages(s), s.injected, s.st.deferred);
    forall id | id in s.st.deferred
      ensures && Lookup(Messages(s), id).Some? && Lookup(Messages(s), id).value.status != Pending
              && Lookup(Approvals(s), id) == None
    {
      assert ViewOk(s.st.queue.Some?, ViewOf(s, id));
    }
  }

  // ------------------------------------------------------------ exactly once

  lemma InjectedGrows(cfg: Config, s: State, e: Event)
    requires Enabled(s, e) && !e.Restart?
    ensures Step(cfg, s, e).injected == s.injected + IdSet(Payload(s, e))
  {
    if e.Announce? {
      forall id ensures id in Payload(s, e) <==> id in IdsOf(NewApprovals(s)) + IdsOf(NewMessages(s)) {
        PayloadMember(s, id);
      }
    }
  }

  /** A session begins at `r` when the run does or after a restart. */
  predicate SessionStart(evs: seq<Event>, r: nat) {
    r <= |evs| && (r == 0 || evs[r - 1].Restart?)
  }

  lemma RestartForgets(cfg: Config, s: State, e: Event)
    requires e.Restart?
    ensures Step(cfg, s, e).injected == {}
  {
  }

  lemma InjectedStep(cfg: Config, tr: seq<State>, evs: seq<Event>, n: nat)
    requires Run(cfg, tr, evs) && n < |evs|
    ensures tr[n + 1].injected == if evs[n].Restart? then {} else tr[n].injected + IdSet(Payload(tr[n], evs[n]))
  {
    assert tr[n + 1] == Step(cfg, tr[n], evs[n]);
    if evs[n].Restart? {
      RestartForgets(cfg, tr[n], evs[n]);
    } else {
      InjectedGrows(cfg, tr[n], evs[n]);
    }
  }

  lemma AnnouncedStep(tr: seq<State>, evs: seq<Event>, r: nat, n: nat, id: TaskId)
    requires r <= n < |evs| < |tr|
    ensures AnnouncedIn(tr, evs, r, n + 1, id) <==> AnnouncedIn(tr, evs, r, n, id) || id in Payload(tr[n], evs[n])
  {
  }

  lemma SessionEmpty(cfg: Config, tr: seq<State>, evs: seq<Event>, r: nat)
    requires Run(cfg, tr, evs) && SessionStart(evs, r)
    ensures tr[r].injected == {}
  {
    if r > 0 {
      assert Enabled(tr[r - 1], evs[r - 1]);
      RestartForgets(cfg, tr[r - 1], evs[r - 1]);
    }
  }

  /** The set of injected ids is what the session's payloads held. */
  ghost predicate InjectedAnnounced(tr: seq<State>, evs: seq<Event>, r: nat, n: nat, id: TaskId)
    requires r <= n <= |evs| < |tr|
  {
    id in tr[n].injected <==> AnnouncedIn(tr, evs, r, n, id)
  }

  lemma InjectedAnnouncedNext(cfg: Config, tr: seq<State>, evs: seq<Event>, r: nat, n: nat, id: TaskId)
    requires Run(cfg, tr, evs) && r <= n < |evs| && !evs[n].Restart? && InjectedAnnounced(tr, evs, r, n, id)
    ensures InjectedAnnounced(tr, evs, r, n + 1, id)
  {
    InjectedStep(cfg, tr, evs, n);
    AnnouncedStep(tr, evs, r, n, id);
  }

  lemma InjectedAnnouncedFirst(cfg: Config, tr: seq<State>, evs: seq<Event>, r: nat, id: TaskId)
    requires Run(cfg, tr, evs) && SessionStart(evs, r)
    ensures InjectedAnnounced(tr, evs, r, r, id)
  {
    SessionEmpty(cfg, tr, evs, r);
  }

  lemma {:induction false} InjectedIsAnnounced(cfg: Config, tr: seq<State>, evs: seq<Event>, r: nat, n: nat, id: TaskId)
    requires Run(cfg, tr, evs) && SessionStart(evs, r) && r <= n <= |evs| && NoRestart(evs, r, n)
    ensures InjectedAnnounced(tr, evs, r, n, id)
    decreases n
  {
    if n == r {
      InjectedAnnouncedFirst(cfg, tr, evs, r, id);
    } else {
      InjectedIsAnnounced(cfg, tr, evs, r, n - 1, id);
      InjectedAnnouncedNext(cfg, tr, evs, r, n - 1, id);
    }
  }

  /** Each call announces exactly the pending items that no earlier call of the
      same session announced. */
  lemma AnnouncesExactlyTheNew(cfg: Config, tr: seq<State>, evs: seq<Event>, r: nat, n: nat, id: TaskId)
    requires Run(cfg, tr, evs) && SessionStart(evs, r) && r <= n < |evs| && NoRestart(evs, r, n)
    requires evs[n].Announce?
    ensures id in Payload(tr[n], evs[n]) <==> IsPending(tr[n], id) && !AnnouncedIn(tr, evs, r, n, id)
  {
    RunInv(cfg, tr, evs, n);
    InjectedIsAnnounced(cfg, tr, evs, r, n, id);
    PayloadIsPending(tr[n], id);
  }

  /** No id is in two payloads of one session. */
  lemma AnnouncedAtMostOnce(cfg: Config, tr: seq<State>, evs: seq<Event>, r: nat, m: nat, n: nat, id: TaskId)
    requires Run(cfg, tr, evs) && SessionStart(evs, r) && r <= m < n < |evs| && NoRestart(evs, r, n)
    requires id in Payload(tr[m], evs[m])
    ensures id !in Payload(tr[n], evs[n])
  {
    if evs[n].Announce? {
      AnnouncesExactlyTheNew(cfg, tr, evs, r, n, id);
    }
  }

  lemma {:induction false} NewlyPendingUnique(es: seq<Entry>, injected: set<TaskId>, deferred: set<TaskId>)
    requires Unique(EntryIds(es))
    ensures Unique(EntryIds(NewlyPending(es, injected, deferred)))
    ensures forall k :: k in EntryIds(NewlyPending(es, injected, deferred)) ==> k in EntryIds(es)
    decreases |es|
  {
    if es != [] {
      var ids, rest := EntryIds(es), EntryIds(es[1..]);
      assert rest == ids[1..];
      assert ids == [es[0].taskId] + rest;
      assert forall i :: 0 <= i < |rest| ==> rest[i] == ids[i + 1];
      NewlyPendingUnique(es[1..], injected, deferred);
      var out := NewlyPending(es, injected, deferred);
      var tail := NewlyPending(es[1..], injected, deferred);
      if out != tail {
        assert out == [es[0]] + tail;
        assert EntryIds(out) == [es[0].taskId] + EntryIds(tail);
        assert ids[0] == es[0].taskId;
        UniqueConcat([es[0].taskId], EntryIds(tail));
      }
    }
  }

  /** No id is in one payload twice. */
  lemma PayloadUnique(cfg: Config, tr: seq<State>, evs: seq<Event>, n: nat)
    requires Run(cfg, tr, evs) && n < |evs|
    ensures Unique(Payload(tr[n], evs[n]))
  {
    var s := tr[n];
    RunInv(cfg, tr, evs, n);
    UniqueParts(s);
    NewlyPendingUnique(Approvals(s), s.injected, s.st.deferred);
    NewlyPendingUnique(Messages(s), s.injected, s.st.deferred);
    forall k ensures !(k in EntryIds(Approvals(s)) && k in EntryIds(Messages(s))) {
      OneEntry(s, k);
      LookupIds(Approvals(s), k);
      LookupIds(Messages(s), k);
    }
    if evs[n].Announce? {
      UniqueConcat(EntryIds(NewApprovals(s)), EntryIds(NewMessages(s)));
    }
  }

  lemma UniqueConcat(a: seq<TaskId>, b: seq<TaskId>)
    requires Unique(a) && Unique(b) && forall k :: !(k in a && k in b)
    ensures Unique(a + b)
  {
    forall i, j | 0 <= i < j < |a + b| ensures (a + b)[i] != (a + b)[j] {
      assert i < |a| ==> (a + b)[i] in a;
      assert j >= |a| ==> (a + b)[j] in b;
    }
  }

  // ------------------------------------------------ deferred before announced

  lemma RequestKeepsMessage(cfg: Config, s: State, e: Event, id: TaskId)
    requires Inv(s) && Enabled(s, e) && (e.Receive? || e.Finish?) && Lookup(Messages(s), id).Some?
    ensures Lookup(Messages(Step(cfg, s, e)), id) == Lookup(Messages(s), id)
  {
    assert ViewOk(s.st.queue.Some?, ViewOf(s, id)) && ViewOk(s.st.queue.Some?, ViewOf(s, e.id));
    if e.Receive? {
      ReceiveKeeps(cfg, s, e.request, e.clock, e.id, e.now);
    } else {
      FinishKeeps(s, Step(cfg, s, e), e.id, e.outcome, cfg.evaluates, e.now);
    }
    assert ViewOf(Step(cfg, s, e), id) == ViewOf(s, id);
  }

  /** The entry is still there and not pending. */
  predicate HasSettled(es: seq<Entry>, id: TaskId) {
    Lookup(es, id).Some? && Lookup(es, id).value.status != Pending
  }

  lemma AnswerKeepsSettled(es: seq<Entry>, k: TaskId, status: EntryStatus, id: TaskId)
    requires HasSettled(es, id) && status != Pending
    ensures HasSettled(WithStatus(es, k, status), id)
  {
    LookupWithStatus(es, k, status, id);
  }

  predicate OnMessages(e: Event) { e.Receive? || e.Finish? || e.Respond? || e.Dismiss? || e.Defer? }

  lemma OthersKeepMessages(cfg: Config, s: State, e: Event)
    requires Enabled(s, e) && !OnMessages(e) && !e.Restart?
    ensures Messages(Step(cfg, s, e)) == Messages(s)
  {
  }

  /** An answer changes at most the status of the entry it names. */
  lemma AnswerChanges(cfg: Config, s: State, e: Event)
    requires e.Respond? || e.Dismiss? || e.Defer?
    ensures var status := match e case Respond(_, _) => Responded case Dismiss(_) => Dismissed case _ => Deferred;
            var es := Messages(Step(cfg, s, e));
            es == Messages(s) || es == WithStatus(Messages(s), e.id, status)
  {
  }

  lemma AnswersKeepSettled(cfg: Config, s: State, e: Event, id: TaskId)
    requires (e.Respond? || e.Dismiss? || e.Defer?) && HasSettled(Messages(s), id)
    ensures HasSettled(Messages(Step(cfg, s, e)), id)
  {
    AnswerChanges(cfg, s, e);
    AnswerKeepsSettled(Messages(s), e.id,
      match e case Respond(_, _) => Responded case Dismiss(_) => Dismissed case _ => Deferred, id);
  }

  lemma RestartKeepsSettled(cfg: Config, s: State, e: Event, id: TaskId)
    requires Inv(s) && e.Restart? && HasSettled(Messages(s), id)
    ensures HasSettled(Messages(Step(cfg, s, e)), id)
  {
    RestartView(s, id);
  }

  /** A message entry that has left the pending state never returns to it. */
  lemma SettledMessageStays(cfg: Config, s: State, e: Event, id: TaskId)
    requires Inv(s) && Enabled(s, e) && HasSettled(Messages(s), id)
    ensures HasSettled(Messages(Step(cfg, s, e)), id)
  {
    if e.Receive? || e.Finish? {
      RequestKeepsMessage(cfg, s, e, id);
    } else if OnMessages(e) {
      AnswersKeepSettled(cfg, s, e, id);
    } else if e.Restart? {
      RestartKeepsSettled(cfg, s, e, id);
    } else {
      OthersKeepMessages(cfg, s, e);
    }
  }

  lemma SettledNext(cfg: Config, tr: seq<State>, evs: seq<Event>, n: nat, id: TaskId)
    requires Run(cfg, tr, evs) && n < |evs| && HasSettled(Messages(tr[n]), id)
    ensures HasSettled(Messages(tr[n + 1]), id)
  {
    RunInv(cfg, tr, evs, n);
    SettledMessageStays(cfg, tr[n], evs[n], id);
  }

  lemma {:induction false} NeverPendingAgain(cfg: Config, tr: seq<State>, evs: seq<Event>, m: nat, n: nat, id: TaskId)
    requires Run(cfg, tr, evs) && m <= n < |tr|
    requires HasSettled(Messages(tr[m]), id)
    ensures HasSettled(Messages(tr[n]), id)
    decreases n
  {
    if m < n {
      NeverPendingAgain(cfg, tr, evs, m, n - 1, id);
      SettledNext(cfg, tr, evs, n - 1, id);
    }
  }

  /** A message that leaves the pending state before it was announced (deferred,
      answered or dismissed) is never announced, not even after a restart. */
  lemma NeverAnnouncedLater(cfg: Config, tr: seq<State>, evs: seq<Event>, m: nat, n: nat, id: TaskId)
    requires Run(cfg, tr, evs) && m <= n < |evs|
    requires HasSettled(Messages(tr[m]), id)
    ensures id !in Payload(tr[n], evs[n])
  {
    NeverPendingAgain(cfg, tr, evs, m, n, id);
    RunInv(cfg, tr, evs, n);
    PayloadIsPending(tr[n], id);
    NotPending(tr[n], id);
  }

  lemma NotPending(s: State, id: TaskId)
    requires Unique(QueuedIds(s))
    requires HasSettled(Messages(s), id)
    ensures !IsPending(s, id)
  {
    UniqueParts(s);
    OneEntry(s, id);
    forall e | (e in Messages(s) || e in Approvals(s)) && e.taskId == id ensures e.status != Pending {
      if e in Messages(s) {
        LookupMember(Messages(s), e);
      } else {
        LookupMember(Approvals(s), e);
      }
    }
  }
}
