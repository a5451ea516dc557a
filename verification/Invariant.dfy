/** The invariant that keeps registry, queues, deferred ids and suspended
    requests in agreement, and its preservation by every step. */
module Invariant {
  import opened Options
  import opened Json
  import opened JsonRoundTrip
  import opened Authentication
  import opened Pending
  import opened Registry
  import opened Receiver
  import opened Protocol

  predicate Pristine(t: Task) { t.artifacts == [] && t.error == None && t.attribution == None }

  /** A task and its message entry. */
  predicate MessageMatches(e: Entry, t: Task) {
    && (match e.status
        case Pending => t.status == InputRequired
        case Responded => t.status == Completed
        case Dismissed => t.status == Rejected
        case Deferred => true
        case _ => false)
    && (match t.status
        case InputRequired => Pristine(t)
        case Completed => t.attribution == Some(AnswerAttribution(e))
        case Rejected => t.attribution == Some(DismissedByUser)
        case _ => false)
  }

  /** A task and its approval entry. */
  predicate ApprovalMatches(e: Entry, t: Task) {
    match e.status
    case Pending => t.status == InputRequired && Pristine(t)
    case Approved => t.status == Completed && t.attribution == None
    case Blocked => t.status == Failed && t.attribution == None
    case _ => false
  }

  /** A task that has no entry. */
  predicate UnqueuedMatches(t: Task) {
    match t.status
    case Working => Pristine(t)
    case Completed => t.attribution == Some(Autonomous)
    case Failed => t.attribution == None
    case _ => false
  }

  /** All that the state says about one task id. */
  datatype View = View(
    task: Option<Task>, message: Option<Entry>, approval: Option<Entry>,
    flying: bool, deferred: bool, issued: bool)

  function ViewOf(s: State, id: TaskId): View {
    View(if id in s.st.tasks then Some(s.st.tasks[id]) else None,
         Lookup(Messages(s), id), Lookup(Approvals(s), id),
         id in s.flights, id in s.st.deferred, id in s.issued)
  }

  predicate Queued(v: View) { v.message.Some? || v.approval.Some? }

  predicate TaskMatches(v: View)
    requires v.task.Some?
  {
    match (v.message, v.approval)
    case (Some(m), _) => MessageMatches(m, v.task.value)
    case (None, Some(a)) => ApprovalMatches(a, v.task.value)
    case (None, None) => UnqueuedMatches(v.task.value)
  }

  /** What every reachable state says about an id:
      - ids with a task or an entry have been issued, and have one entry at most;
      - the WORKING tasks are exactly those of suspended requests, without entry;
      - deferred ids are message entries that are not pending;
      - with a queue attached, task and entry match. */
  predicate ViewOk(hasQueue: bool, v: View) {
    && (v.task.Some? || Queued(v) ==> v.issued)
    && !(v.message.Some? && v.approval.Some?)
    && (v.flying <==> v.task.Some? && v.task.value.status == Working)
    && (v.flying ==> !Queued(v))
    && (v.deferred ==> v.message.Some? && v.message.value.status != Pending)
    && (hasQueue && v.task.Some? ==> TaskMatches(v))
  }

  ghost predicate Inv(s: State) {
    && Unique(QueuedIds(s)) && PlainIds(s.issued)
    && forall id :: ViewOk(s.st.queue.Some?, ViewOf(s, id))
  }

  // ----------------------------------------------------- lookups and updates

  lemma {:induction false} IndexOfReplaced(es: seq<Entry>, i: nat, e: Entry, k: TaskId)
    requires i < |es| && e.taskId == es[i].taskId
    ensures IndexOf(es[i := e], k) == IndexOf(es, k)
    decreases |es|
  {
    if i == 0 {
      assert es[0 := e][1..] == es[1..];
    } else {
      IndexOfReplaced(es[1..], i - 1, e, k);
      assert es[i := e][1..] == es[1..][i - 1 := e];
    }
  }

  lemma LookupWithStatus(es: seq<Entry>, id: TaskId, status: EntryStatus, k: TaskId)
    ensures Lookup(WithStatus(es, id, status), k) ==
            if k == id && Lookup(es, id).Some? then Some(Lookup(es, id).value.(status := status)) else Lookup(es, k)
  {
    var i := IndexOf(es, id);
    if i < |es| {
      IndexOfReplaced(es, i, es[i].(status := status), k);
    }
  }

  lemma {:induction false} LookupAppend(es: seq<Entry>, e: Entry, k: TaskId)
    ensures Lookup(es + [e], k) ==
            if Lookup(es, k).Some? then Lookup(es, k) else if e.taskId == k then Some(e) else None
    decreases |es|
  {
    if es == [] {
      assert (es + [e])[1..] == [];
    } else {
      LookupAppend(es[1..], e, k);
      assert (es + [e])[1..] == es[1..] + [e];
    }
  }

  lemma LookupIds(es: seq<Entry>, k: TaskId)
    ensures Lookup(es, k).Some? <==> k in EntryIds(es)
  {
    if Lookup(es, k).Some? {
      assert EntryIds(es)[IndexOf(es, k)] == k;
    }
  }

  lemma IdsWithStatus(es: seq<Entry>, id: TaskId, status: EntryStatus)
    ensures EntryIds(WithStatus(es, id, status)) == EntryIds(es)
  {
  }

  lemma IdsAppend(es: seq<Entry>, e: Entry)
    ensures EntryIds(es + [e]) == EntryIds(es) + [e.taskId]
  {
  }

  /** An entry of a list without duplicate ids is the one a lookup finds. */
  lemma LookupMember(es: seq<Entry>, e: Entry)
    requires Unique(EntryIds(es)) && e in es
    ensures Lookup(es, e.taskId) == Some(e)
  {
    var i :| 0 <= i < |es| && es[i] == e;
    assert EntryIds(es)[i] == e.taskId && EntryIds(es)[IndexOf(es, e.taskId)] == e.taskId;
  }

  lemma {:induction false} PendingMember(es: seq<Entry>, e: Entry)
    ensures e in PendingOf(es) <==> e in es && e.status == Pending
    decreases |es|
  {
    if es != [] {
      PendingMember(es[1..], e);
      assert es == [es[0]] + es[1..];
    }
  }

  lemma {:induction false} FirstFromMember(es: seq<Entry>, url: Str)
    ensures FirstFrom(es, url).Some? ==> FirstFrom(es, url).value in es && FirstFrom(es, url).value.senderUrl == url
    decreases |es|
  {
    if es != [] {
      FirstFromMember(es[1..], url);
    }
  }

  lemma UniqueParts(s: State)
    requires Unique(QueuedIds(s))
    ensures Unique(EntryIds(Messages(s))) && Unique(EntryIds(Approvals(s)))
  {
    var m, a, q := EntryIds(Messages(s)), EntryIds(Approvals(s)), QueuedIds(s);
    assert forall i :: 0 <= i < |m| ==> m[i] == q[i];
    assert forall i :: 0 <= i < |a| ==> a[i] == q[|m| + i];
  }

  lemma OneEntry(s: State, id: TaskId)
    requires Unique(QueuedIds(s))
    ensures !(Lookup(Messages(s), id).Some? && Lookup(Approvals(s), id).Some?)
  {
    var m, a, q := EntryIds(Messages(s)), EntryIds(Approvals(s)), QueuedIds(s);
    LookupIds(Messages(s), id);
    LookupIds(Approvals(s), id);
    assert forall i :: 0 <= i < |m| ==> m[i] == q[i];
    assert forall i :: 0 <= i < |a| ==> a[i] == q[|m| + i];
  }

  /** The approval that approve and block act on. */
  lemma PendingApprovalFound(s: State, url: Str)
    requires Unique(QueuedIds(s)) && s.st.queue.Some? && PendingApproval(s.st.queue.value, url).Some?
    ensures var e := PendingApproval(s.st.queue.value, url).value;
            Lookup(Approvals(s), e.taskId) == Some(e) && e.status == Pending && e.senderUrl == url
  {
    var es := Approvals(s);
    var e := PendingApproval(s.st.queue.value, url).value;
    FirstFromMember(PendingOf(es), url);
    PendingMember(es, e);
    UniqueParts(s);
    LookupMember(es, e);
  }

  lemma QueuedMember(s: State, id: TaskId)
    ensures id in QueuedIds(s) <==> Queued(ViewOf(s, id))
  {
    LookupIds(Messages(s), id);
    LookupIds(Approvals(s), id);
  }

  // ------------------------------------------------------- one step, by view

  /** A step that changes what the state says about one id only. */
  lemma ChangeAt(s: State, s': State, id: TaskId)
    requires Inv(s) && s'.st.queue.Some? == s.st.queue.Some?
    requires Unique(QueuedIds(s')) && PlainIds(s'.issued)
    requires forall k :: k != id ==> ViewOf(s', k) == ViewOf(s, k)
    requires ViewOk(s.st.queue.Some?, ViewOf(s', id))
    ensures Inv(s')
  {
    forall k ensures ViewOk(s'.st.queue.Some?, ViewOf(s', k)) {
      assert ViewOk(s.st.queue.Some?, ViewOf(s, k));
    }
  }

  lemma UniqueInsert(a: seq<TaskId>, x: TaskId, b: seq<TaskId>)
    requires Unique(a + b) && x !in a + b
    ensures Unique(a + [x] + b)
  {
    var s, t := a + b, a + [x] + b;
    assert forall i :: 0 <= i < |a| ==> t[i] == s[i];
    assert t[|a|] == x;
    assert forall i :: |a| < i < |t| ==> t[i] == s[i - 1];
  }

  /** Adding a first entry for a task. */
  lemma PushUnique(s: State, id: TaskId, m: Option<Entry>, a: Option<Entry>, s': State)
    requires Unique(QueuedIds(s)) && !Queued(ViewOf(s, id))
    requires (m.Some? ==> m.value.taskId == id) && (a.Some? ==> a.value.taskId == id) && !(m.Some? && a.Some?)
    requires s'.st.queue == Push(s.st.queue, m, a)
    ensures Unique(QueuedIds(s'))
  {
    var ms, others := EntryIds(Messages(s)), EntryIds(Approvals(s));
    QueuedMember(s, id);
    if s.st.queue.Some? {
      if m.Some? {
        IdsAppend(Messages(s), m.value);
        UniqueInsert(ms, id, others);
        assert QueuedIds(s') == ms + [id] + others;
      } else if a.Some? {
        IdsAppend(Approvals(s), a.value);
        assert ms + others + [] == ms + others;
        UniqueInsert(ms + others, id, []);
        assert QueuedIds(s') == ms + others + [id] + [];
      }
    }
  }

  lemma PushLookup(s: State, m: Option<Entry>, a: Option<Entry>, s': State, k: TaskId)
    requires s'.st.queue == Push(s.st.queue, m, a)
    ensures s.st.queue.Some? ==>
              (Lookup(Messages(s'), k) ==
               if Lookup(Messages(s), k).Some? then Lookup(Messages(s), k)
               else if m.Some? && m.value.taskId == k then m else None)
    ensures s.st.queue.Some? ==>
              (Lookup(Approvals(s'), k) ==
               if Lookup(Approvals(s), k).Some? then Lookup(Approvals(s), k)
               else if a.Some? && a.value.taskId == k then a else None)
    ensures s.st.queue.None? ==> Messages(s') == Messages(s) && Approvals(s') == Approvals(s)
  {
    if m.Some? {
      LookupAppend(Messages(s), m.value, k);
    }
    if a.Some? {
      LookupAppend(Approvals(s), a.value, k);
    }
  }

  /** A state with new nonces only. */
  lemma SameView(s: State, s': State)
    requires Inv(s) && s'.st.queue == s.st.queue && s'.issued == s.issued
    requires forall k :: ViewOf(s', k) == ViewOf(s, k)
    ensures Inv(s')
  {
    forall k ensures ViewOk(s'.st.queue.Some?, ViewOf(s', k)) {
      assert ViewOk(s.st.queue.Some?, ViewOf(s, k));
    }
  }

  /** What the state says about an id apart from queue entries is the same. */
  predicate SameTask(s: State, s': State, k: TaskId) {
    var v, v' := ViewOf(s, k), ViewOf(s', k);
    v'.task == v.task && v'.flying == v.flying && v'.deferred == v.deferred && v'.issued == v.issued
  }

  /** A step that may add the first entry of one task, and touches that task only. */
  lemma PushKeeps(s: State, s': State, id: TaskId, m: Option<Entry>, a: Option<Entry>)
    requires Inv(s) && s'.st.queue == Push(s.st.queue, m, a) && !Queued(ViewOf(s, id)) && PlainIds(s'.issued)
    requires (m.Some? ==> m.value.taskId == id) && (a.Some? ==> a.value.taskId == id) && !(m.Some? && a.Some?)
    requires forall k :: k != id ==> SameTask(s, s', k)
    requires ViewOk(s.st.queue.Some?, ViewOf(s', id))
    ensures Inv(s')
    ensures forall k :: k != id ==> ViewOf(s', k) == ViewOf(s, k)
  {
    PushUnique(s, id, m, a, s');
    forall k | k != id ensures ViewOf(s', k) == ViewOf(s, k) {
      assert SameTask(s, s', k);
      PushLookup(s, m, a, s', k);
    }
    ChangeAt(s, s', id);
  }

  /** The entries that a routed request adds. */
  function MessageFor(route: Route, body: Body, id: TaskId, now: Str): Option<Entry>
    requires body.Body?
  {
    if route.ToUser? then Some(NewMessage(id, route.url, body.senderName, body.message, now, false)) else None
  }

  function ApprovalFor(route: Route, body: Body, id: TaskId, now: Str): Option<Entry>
    requires body.Body?
  {
    if route.ToApproval? then Some(NewApproval(id, route.url, body.senderName, body.message, now)) else None
  }

  lemma StartParts(st: Stores, route: Route, body: Body, id: TaskId, now: Str)
    requires !route.Refuse? && body.Body?
    ensures var st' := AfterStart(st, route, body, id, now);
            && st'.queue == Push(st.queue, MessageFor(route, body, id, now), ApprovalFor(route, body, id, now))
            && st'.tasks ==
                 st.tasks[id := Task(if route.ToChild? then Working else InputRequired, body.message, [], None, None)]
            && st'.deferred == st.deferred
  {
  }

  /** A new task with what a routed request adds for it. */
  lemma NewView(v: View, hasQueue: bool, route: Route, message: Value, m: Option<Entry>, a: Option<Entry>)
    requires v.task == Some(Task(if route.ToChild? then Working else InputRequired, message, [], None, None))
    requires m.Some? == route.ToUser? && a.Some? == route.ToApproval? && !route.Refuse?
    requires (m.Some? ==> m.value.status == Pending) && (a.Some? ==> a.value.status == Pending)
    requires if hasQueue then v.message == m && v.approval == a else v.message == None && v.approval == None
    requires v.issued && !v.deferred && v.flying == route.ToChild?
    ensures ViewOk(hasQueue, v)
  {
  }

  /** The state after a routed request. */
  predicate Routed(s: State, s': State, route: Route, body: Body, id: TaskId, now: Str) {
    && !route.Refuse? && body.Body?
    && s'.st == AfterStart(s.st, route, body, id, now) && s'.issued == s.issued + {id}
    && s'.flights == if route.ToChild? then s.flights[id := FlightOf(route, body)] else s.flights
  }

  lemma RoutedView(s: State, s': State, route: Route, body: Body, id: TaskId, now: Str)
    requires Inv(s) && id !in s.issued && Routed(s, s', route, body, id, now)
    ensures ViewOk(s.st.queue.Some?, ViewOf(s', id)) && !Queued(ViewOf(s, id))
    ensures ViewOf(s', id).task.Some? && ViewOf(s', id).task.value.status != Submitted
  {
    var m, a := MessageFor(route, body, id, now), ApprovalFor(route, body, id, now);
    assert ViewOk(s.st.queue.Some?, ViewOf(s, id));
    StartParts(s.st, route, body, id, now);
    PushLookup(s, m, a, s', id);
    NewView(ViewOf(s', id), s.st.queue.Some?, route, body.message, m, a);
  }

  lemma RoutedOthers(s: State, s': State, route: Route, body: Body, id: TaskId, now: Str, k: TaskId)
    requires Routed(s, s', route, body, id, now) && k != id
    ensures SameTask(s, s', k)
  {
    StartParts(s.st, route, body, id, now);
  }

  lemma RouteKeeps(s: State, s': State, route: Route, body: Body, id: TaskId, now: Str)
    requires Inv(s) && id !in s.issued && PairFree(id) && Routed(s, s', route, body, id, now)
    ensures Inv(s')
    ensures forall k :: k != id ==> ViewOf(s', k) == ViewOf(s, k)
    ensures ViewOf(s', id).task.Some? && ViewOf(s', id).task.value.status != Submitted
  {
    StartParts(s.st, route, body, id, now);
    RoutedView(s, s', route, body, id, now);
    forall k | k != id ensures SameTask(s, s', k) {
      RoutedOthers(s, s', route, body, id, now, k);
    }
    PushKeeps(s, s', id, MessageFor(route, body, id, now), ApprovalFor(route, body, id, now));
  }

  lemma ReceiveKeeps(cfg: Config, s: State, request: Request, clock: int, id: TaskId, now: Str)
    requires Inv(s) && id !in s.issued && PairFree(id)
    ensures Inv(AfterReceive(cfg, s, request, clock, id, now))
    ensures forall k :: k != id ==> ViewOf(AfterReceive(cfg, s, request, clock, id, now), k) == ViewOf(s, k)
  {
    var s' := AfterReceive(cfg, s, request, clock, id, now);
    var route := RouteFor(cfg, s, request, clock);
    if route.Some? && !route.value.Refuse? {
      RouteKeeps(s, s', route.value, cfg.decode(request.body), id, now);
    } else {
      SameView(s, s');
    }
  }

  lemma FinishKeeps(s: State, s': State, id: TaskId, outcome: ChildOutcome, evaluates: bool, now: Str)
    requires Inv(s) && id in s.flights
    requires s' == s.(st := AfterFinish(s.st, id, s.flights[id], outcome, evaluates, now), flights := s.flights - {id})
    ensures Inv(s')
    ensures forall k :: k != id ==> ViewOf(s', k) == ViewOf(s, k)
  {
    var f := s.flights[id];
    var m := if Escalates(evaluates, f, outcome)
             then Some(NewMessage(id, f.senderUrl, f.senderName, f.message, now, true)) else None;
    assert ViewOk(s.st.queue.Some?, ViewOf(s, id));
    assert s'.st.queue == Push(s.st.queue, m, None);
    PushLookup(s, m, None, s', id);
    PushKeeps(s, s', id, m, None);
  }

  /** approve or block, on the approval entry `e` it found. */
  lemma DecisionKeeps(s: State, s': State, e: Entry, status: EntryStatus)
    requires Inv(s) && s.st.queue.Some? && Lookup(Approvals(s), e.taskId) == Some(e) && e.status == Pending
    requires s'.st.queue == Some(s.st.queue.value.(approvals := WithStatus(Approvals(s), e.taskId, status)))
    requires forall k :: k != e.taskId ==> ViewOf(s', k).task == ViewOf(s, k).task
    requires ViewOk(true, ViewOf(s', e.taskId))
    requires s'.st.deferred == s.st.deferred && s'.flights == s.flights && s'.issued == s.issued
    ensures Inv(s')
    ensures forall k :: k != e.taskId ==> ViewOf(s', k) == ViewOf(s, k)
  {
    IdsWithStatus(Approvals(s), e.taskId, status);
    assert QueuedIds(s') == QueuedIds(s);
    forall k | k != e.taskId ensures ViewOf(s', k) == ViewOf(s, k) {
      LookupWithStatus(Approvals(s), e.taskId, status, k);
    }
    ChangeAt(s, s', e.taskId);
  }

  lemma ApproveKeeps(s: State, s': State, agent: Str, tier: Str, now: Str)
    requires Inv(s) && s' == s.(st := AfterApprove(s.st, agent, tier, now))
    ensures Inv(s')
  {
    if ApproveResult(s.st, agent) == Success {
      var e := PendingApproval(s.st.queue.value, agent).value;
      PendingApprovalFound(s, agent);
      assert ViewOk(true, ViewOf(s, e.taskId));
      LookupWithStatus(Approvals(s), e.taskId, Approved, e.taskId);
      DecisionKeeps(s, s', e, Approved);
    }
  }

  lemma BlockKeeps(s: State, s': State, agent: Str)
    requires Inv(s) && s' == s.(st := AfterBlock(s.st, agent))
    ensures Inv(s')
  {
    if ApproveResult(s.st, agent) == Success {
      var e := PendingApproval(s.st.queue.value, agent).value;
      PendingApprovalFound(s, agent);
      assert ViewOk(true, ViewOf(s, e.taskId));
      LookupWithStatus(Approvals(s), e.taskId, Blocked, e.taskId);
      DecisionKeeps(s, s', e, Blocked);
    }
  }

  lemma OtherMessages(s: State, s': State, id: TaskId, status: EntryStatus, k: TaskId)
    requires k != id && s'.st.queue == WithMessageStatus(s.st, id, status)
    ensures Lookup(Messages(s'), k) == Lookup(Messages(s), k) && Approvals(s') == Approvals(s)
  {
    LookupWithStatus(Messages(s), id, status, k);
  }

  /** respond, dismiss and defer, on a message entry found. */
  lemma MessageKeeps(s: State, s': State, id: TaskId, status: EntryStatus)
    requires Inv(s) && s.st.queue.Some? && Lookup(Messages(s), id).Some?
    requires s'.st.queue == WithMessageStatus(s.st, id, status)
    requires forall k :: k != id ==> ViewOf(s', k).task == ViewOf(s, k).task
    requires s.st.deferred <= s'.st.deferred <= s.st.deferred + {id}
    requires s'.flights == s.flights && s'.issued == s.issued
    requires ViewOk(true, ViewOf(s', id))
    ensures Inv(s')
    ensures forall k :: k != id ==> ViewOf(s', k) == ViewOf(s, k)
  {
    IdsWithStatus(Messages(s), id, status);
    assert QueuedIds(s') == QueuedIds(s);
    forall k | k != id ensures ViewOf(s', k) == ViewOf(s, k) {
      assert ViewOf(s', k).task == ViewOf(s, k).task;
      OtherMessages(s, s', id, status, k);
    }
    ChangeAt(s, s', id);
  }

  lemma RespondKeeps(s: State, s': State, id: TaskId, text: Str)
    requires Inv(s) && s' == s.(st := AfterRespond(s.st, id, text))
    ensures Inv(s')
  {
    if MessageResult(s.st, id, text != []) == Success {
      assert ViewOk(true, ViewOf(s, id));
      LookupWithStatus(Messages(s), id, Responded, id);
      MessageKeeps(s, s', id, Responded);
    }
  }

  lemma DismissKeeps(s: State, s': State, id: TaskId)
    requires Inv(s) && s' == s.(st := AfterDismiss(s.st, id))
    ensures Inv(s')
  {
    if MessageResult(s.st, id, true) == Success {
      assert ViewOk(true, ViewOf(s, id));
      LookupWithStatus(Messages(s), id, Dismissed, id);
      MessageKeeps(s, s', id, Dismissed);
    }
  }

  lemma DeferKeeps(s: State, s': State, id: TaskId)
    requires Inv(s) && s' == s.(st := AfterDefer(s.st, id))
    ensures Inv(s')
  {
    if DeferResult(s.st, id) == Success {
      assert ViewOk(true, ViewOf(s, id));
      LookupWithStatus(Messages(s), id, Deferred, id);
      MessageKeeps(s, s', id, Deferred);
    }
  }

  lemma JoinedIds(es: seq<Entry>)
    requires forall i :: 0 <= i < |es| ==> PairFree(es[i].taskId)
    ensures EntryIds(JoinEntries(es)) == EntryIds(es)
  {
    forall i | 0 <= i < |es| ensures JoinEntries(es)[i].taskId == es[i].taskId {
      JoinIdentity(es[i].taskId);
    }
  }

  /** Reading back touches texts only: ids, statuses and order are as they were. */
  lemma LookupJoined(es: seq<Entry>, k: TaskId)
    requires forall i :: 0 <= i < |es| ==> PairFree(es[i].taskId)
    ensures Lookup(JoinEntries(es), k) ==
            if Lookup(es, k).Some? then Some(JoinEntry(Lookup(es, k).value)) else None
  {
    JoinedIds(es);
    var js := JoinEntries(es);
    forall i | 0 <= i < |es| ensures js[i].taskId == es[i].taskId {
      assert EntryIds(js)[i] == EntryIds(es)[i];
    }
    IndexByIds(js, es, k);
  }

  lemma IndexByIds(js: seq<Entry>, es: seq<Entry>, k: TaskId)
    requires |js| == |es| && forall i :: 0 <= i < |es| ==> js[i].taskId == es[i].taskId
    ensures IndexOf(js, k) == IndexOf(es, k)
  {
    var i, j := IndexOf(es, k), IndexOf(js, k);
    assert i < |es| ==> js[i].taskId == k;
    assert j < |js| ==> es[j].taskId == k;
  }

  /** In a reachable state all queued ids are plain. */
  lemma QueuedPlain(s: State)
    requires Inv(s)
    ensures forall i :: 0 <= i < |Messages(s)| ==> PairFree(Messages(s)[i].taskId)
    ensures forall i :: 0 <= i < |Approvals(s)| ==> PairFree(Approvals(s)[i].taskId)
  {
    forall e | e in Messages(s) || e in Approvals(s) ensures PairFree(e.taskId) {
      UniqueParts(s);
      if e in Messages(s) {
        LookupMember(Messages(s), e);
      } else {
        LookupMember(Approvals(s), e);
      }
      assert ViewOk(s.st.queue.Some?, ViewOf(s, e.taskId));
    }
  }

  /** What a restart leaves of what the state says about an id. */
  lemma RestartView(s: State, k: TaskId)
    requires Inv(s)
    ensures var v, v' := ViewOf(s, k), ViewOf(AfterRestart(s), k);
            && v'.task == None && !v'.flying && !v'.deferred && v'.issued == v.issued
            && v'.message == (if v.message.Some? then Some(JoinEntry(v.message.value)) else None)
            && v'.approval == (if v.approval.Some? then Some(JoinEntry(v.approval.value)) else None)
  {
    QueuedPlain(s);
    LookupJoined(Messages(s), k);
    LookupJoined(Approvals(s), k);
  }

  lemma RestartKeeps(s: State)
    requires Inv(s)
    ensures Inv(AfterRestart(s)) && Init(AfterRestart(s))
  {
    var s' := AfterRestart(s);
    QueuedPlain(s);
    JoinedIds(Messages(s));
    JoinedIds(Approvals(s));
    assert QueuedIds(s') == QueuedIds(s);
    forall k ensures ViewOk(s'.st.queue.Some?, ViewOf(s', k)) {
      assert ViewOk(s.st.queue.Some?, ViewOf(s, k));
      RestartView(s, k);
    }
    forall i | 0 <= i < |QueuedIds(s')| ensures QueuedIds(s')[i] in s'.issued {
      QueuedMember(s, QueuedIds(s)[i]);
      assert ViewOk(s.st.queue.Some?, ViewOf(s, QueuedIds(s)[i]));
    }
  }

  lemma InitInv(s: State)
    requires Init(s)
    ensures Inv(s)
  {
    forall k ensures ViewOk(s.st.queue.Some?, ViewOf(s, k)) {
      QueuedMember(s, k);
      OneEntry(s, k);
    }
  }

  lemma StepKeeps(cfg: Config, s: State, e: Event)
    requires Inv(s) && Enabled(s, e)
    ensures Inv(Step(cfg, s, e))
  {
    var s' := Step(cfg, s, e);
    match e
    case Receive(request, clock, id, now) => ReceiveKeeps(cfg, s, request, clock, id, now);
    case Finish(id, outcome, now) => FinishKeeps(s, s', id, outcome, cfg.evaluates, now);
    case Approve(agent, tier, now) => ApproveKeeps(s, s', agent, tier, now);
    case Block(agent) => BlockKeeps(s, s', agent);
    case Respond(id, text) => RespondKeeps(s, s', id, text);
    case Dismiss(id) => DismissKeeps(s, s', id);
    case Defer(id) => DeferKeeps(s, s', id);
    case Restart => RestartKeeps(s);
    case _ => SameView(s, s');
  }

  /** The invariant holds in every state of every run. */
  lemma {:induction false} RunInv(cfg: Config, tr: seq<State>, evs: seq<Event>, n: nat)
    requires Run(cfg, tr, evs) && n < |tr|
    ensures Inv(tr[n])
    decreases n
  {
    if n == 0 {
      InitInv(tr[0]);
    } else {
      RunInv(cfg, tr, evs, n - 1);
      StepKeeps(cfg, tr[n - 1], evs[n - 1]);
    }
  }
}
