/** A restart reads the files back: the receiver has the queues and contacts that it
    had, but for the surrogate pairs that JSON joins. */
module Reopening {
  import opened Options
  import opened Json
  import opened JsonRoundTrip
  import opened JsonExact
  import opened Files
  import opened Authentication
  import C = Contacts
  import P = Pending
  import opened Registry
  import opened Receiver
  import opened Protocol
  import Invariant

  /** The files of the attached stores. */
  datatype Disk = Disk(queue: Option<QueueFiles>, contacts: Option<File>)

  datatype QueueFiles = QueueFiles(messages: File, approvals: File)

  predicate OwnDisk(d: Disk) {
    && (d.queue.Some? ==> P.OwnFile(d.queue.value.messages) && P.OwnFile(d.queue.value.approvals))
    && (d.contacts.Some? ==> C.OwnFile(d.contacts.value))
  }

  /** The stores of a process that has just opened these files. */
  function Opened(d: Disk): Stores
    requires OwnDisk(d)
  {
    Stores(map[], {},
      if d.queue.None? then None
      else Some(Queues(P.DecodeEntries(LoadList(d.queue.value.messages)),
                       P.DecodeEntries(LoadList(d.queue.value.approvals)))),
      if d.contacts.None? then None else Some(C.DecodeContacts(LoadList(d.contacts.value))))
  }

  /** What the stores' own invariants say about their files, at every moment. */
  ghost predicate OnDisk(d: Disk, st: Stores) {
    && d.queue.Some? == st.queue.Some? && d.contacts.Some? == st.contacts.Some?
    && (st.queue.Some? ==>
          && P.WrittenThrough(d.queue.value.messages, st.queue.value.messages)
          && P.WrittenThrough(d.queue.value.approvals, st.queue.value.approvals))
    && (st.contacts.Some? ==> C.WrittenThrough(d.contacts.value, st.contacts.value))
  }

  // -------------------------------------------------------- clean texts stay so

  ghost predicate CleanFlight(id: P.TaskId, f: Flight) {
    PairFree(id) && PairFree(f.senderUrl) && PairFree(f.senderName) && PairFreeTree(f.message)
  }

  ghost predicate CleanStores(st: Stores) {
    && (st.queue.Some? ==> P.CleanEntries(st.queue.value.messages) && P.CleanEntries(st.queue.value.approvals))
    && (st.contacts.Some? ==> C.CleanContacts(st.contacts.value))
  }

  /** No text in queues, contacts and suspended requests has a pair to join. */
  ghost predicate CleanState(s: State) {
    CleanStores(s.st) && forall id :: id in s.flights ==> CleanFlight(id, s.flights[id])
  }

  ghost predicate CleanPeers(auth: AuthConfig) {
    forall k :: k in auth.peers && auth.peers[k].PeerDict? && auth.peers[k].senderUrl.Some? ==>
      PairFree(auth.peers[k].senderUrl.value)
  }

  ghost predicate CleanBody(body: Body) {
    body.Body? ==> PairFree(body.claimedUrl) && PairFree(body.senderName) && PairFreeTree(body.message)
  }

  /** No text that the step brings in has such a pair. */
  ghost predicate CleanEvent(cfg: Config, e: Event) {
    match e
    case Receive(request, _, id, now) => PairFree(id) && PairFree(now) && CleanBody(cfg.decode(request.body))
    case Finish(_, _, now) => PairFree(now)
    case Approve(_, tier, now) => PairFree(tier) && PairFree(now)
    case AddContact(agent, name, tier, now) => PairFree(agent) && PairFree(name) && PairFree(tier) && PairFree(now)
    case Trust(_, tier) => PairFree(tier)
    case _ => true
  }

  lemma RouteUrlClean(required: bool, contacts: Option<seq<C.Contact>>, peer: Option<Peer>, body: Body)
    requires CleanBody(body) && (peer.Some? ==> PairFree(peer.value.senderUrl))
    ensures match RouteOf(required, contacts, peer, body)
            case ToApproval(url) => PairFree(url)
            case ToUser(url) => PairFree(url)
            case ToChild(url, _) => PairFree(url)
            case _ => true
  {
  }

  lemma AcceptedUrlClean(auth: AuthConfig, crypto: Crypto, seen: NonceCache, r: Request, now: int)
    requires CleanPeers(auth) && Decide(auth, crypto, seen, r, now).Accepted?
    ensures PairFree(Decide(auth, crypto, seen, r, now).peer.senderUrl)
  {
  }

  lemma PushClean(q: Option<Queues>, m: Option<P.Entry>, a: Option<P.Entry>)
    requires q.Some? ==> P.CleanEntries(q.value.messages) && P.CleanEntries(q.value.approvals)
    requires (m.Some? ==> P.CleanEntry(m.value)) && (a.Some? ==> P.CleanEntry(a.value))
    ensures var q' := Push(q, m, a);
            q'.Some? ==> P.CleanEntries(q'.value.messages) && P.CleanEntries(q'.value.approvals)
  {
  }

  lemma StatusClean(es: seq<P.Entry>, id: P.TaskId, status: P.EntryStatus)
    requires P.CleanEntries(es)
    ensures P.CleanEntries(P.WithStatus(es, id, status))
  {
  }

  lemma StartClean(st: Stores, route: Route, body: Body, id: P.TaskId, now: Str)
    requires CleanStores(st) && !route.Refuse? && body.Body? && CleanBody(body) && PairFree(id) && PairFree(now)
    requires PairFree(route.url)
    ensures CleanStores(AfterStart(st, route, body, id, now))
  {
    match route
    case ToApproval(url) => PushClean(st.queue, None, Some(P.NewApproval(id, url, body.senderName, body.message, now)));
    case ToUser(url) =>
      PushClean(st.queue, Some(P.NewMessage(id, url, body.senderName, body.message, now, false)), None);
    case _ =>
  }

  lemma ReceiveClean(cfg: Config, s: State, e: Event)
    requires CleanState(s) && CleanPeers(cfg.auth) && CleanEvent(cfg, e) && e.Receive?
    ensures CleanState(AfterReceive(cfg, s, e.request, e.clock, e.id, e.now))
  {
    var v := Decide(cfg.auth, cfg.crypto, s.seen, e.request, e.clock);
    var body := cfg.decode(e.request.body);
    var route := RouteFor(cfg, s, e.request, e.clock);
    if v.Accepted? {
      AcceptedUrlClean(cfg.auth, cfg.crypto, s.seen, e.request, e.clock);
    }
    if route.Some? && !route.value.Refuse? {
      RouteUrlClean(cfg.auth.required, s.st.contacts, if v.Accepted? then Some(v.peer) else None, body);
      StartClean(s.st, route.value, body, e.id, e.now);
    }
  }

  lemma FinishClean(cfg: Config, s: State, e: Event)
    requires CleanState(s) && CleanEvent(cfg, e) && e.Finish? && Enabled(s, e)
    ensures CleanState(Step(cfg, s, e))
  {
    var f := s.flights[e.id];
    assert CleanFlight(e.id, f);
    PushClean(s.st.queue, Some(P.NewMessage(e.id, f.senderUrl, f.senderName, f.message, e.now, true)), None);
  }

  lemma MemberClean(es: seq<P.Entry>, url: Str)
    requires P.CleanEntries(es) && FirstFrom(P.PendingOf(es), url).Some?
    ensures P.CleanEntry(FirstFrom(P.PendingOf(es), url).value)
  {
    var e := FirstFrom(P.PendingOf(es), url).value;
    Invariant.FirstFromMember(P.PendingOf(es), url);
    Invariant.PendingMember(es, e);
    var i :| 0 <= i < |es| && es[i] == e;
  }

  lemma ApproveClean(cfg: Config, s: State, e: Event)
    requires CleanState(s) && CleanEvent(cfg, e) && e.Approve?
    ensures CleanStores(AfterApprove(s.st, e.agent, e.tier, e.now))
  {
    if ApproveResult(s.st, e.agent) == Success {
      var q := s.st.queue.value;
      MemberClean(q.approvals, e.agent);
      StatusClean(q.approvals, PendingApproval(q, e.agent).value.taskId, P.Approved);
    }
  }

  lemma AnswerClean(cfg: Config, s: State, e: Event)
    requires CleanState(s) && (e.Block? || e.Respond? || e.Dismiss? || e.Defer?)
    ensures CleanState(Step(cfg, s, e))
  {
    if s.st.queue.Some? {
      var q := s.st.queue.value;
      if e.Block? && PendingApproval(q, e.agent).Some? {
        StatusClean(q.approvals, PendingApproval(q, e.agent).value.taskId, P.Blocked);
      } else if !e.Block? {
        StatusClean(q.messages, e.id, P.Responded);
        StatusClean(q.messages, e.id, P.Dismissed);
        StatusClean(q.messages, e.id, P.Deferred);
      }
    }
  }

  lemma StepClean(cfg: Config, s: State, e: Event)
    requires CleanState(s) && CleanPeers(cfg.auth) && CleanEvent(cfg, e) && Enabled(s, e)
    ensures CleanState(Step(cfg, s, e))
  {
    if e.Receive? {
      ReceiveClean(cfg, s, e);
    } else if e.Finish? {
      FinishClean(cfg, s, e);
    } else if e.Approve? {
      ApproveClean(cfg, s, e);
    } else if e.Block? || e.Respond? || e.Dismiss? || e.Defer? {
      AnswerClean(cfg, s, e);
    } else if e.Restart? {
      RestartClean(s);
    }
  }

  lemma RestartClean(s: State)
    ensures CleanState(AfterRestart(s))
  {
    if s.st.queue.Some? {
      JoinedClean(s.st.queue.value.messages);
      JoinedClean(s.st.queue.value.approvals);
    }
    if s.st.contacts.Some? {
      C.JoinContactsExact(s.st.contacts.value);
    }
  }

  lemma JoinedClean(es: seq<P.Entry>)
    ensures P.CleanEntries(P.JoinEntries(es))
  {
    forall i | 0 <= i < |es| ensures P.CleanEntry(P.JoinEntry(es[i])) {
      JoinPairFree(es[i].taskId);
      JoinPairFree(es[i].senderUrl);
      JoinPairFree(es[i].senderName);
      JoinPairFree(es[i].receivedAt);
      JoinedTreeClean(es[i].message);
    }
  }

  lemma JoinedTreeClean(v: Value)
    ensures PairFreeTree(JoinTree(v))
  {
    JoinTreeDicts(v);
    JoinTreePairFree(v);
    PairFreeByMeaning(JoinTree(v));
  }

  /** Whatever the files hold, stores opened on them are clean. */
  lemma OpenedIsClean(d: Disk)
    requires OwnDisk(d)
    ensures CleanStores(Opened(d))
  {
    if d.queue.Some? {
      P.LoadedClean(d.queue.value.messages);
      P.LoadedClean(d.queue.value.approvals);
    }
    if d.contacts.Some? {
      C.LoadedClean(d.contacts.value);
    }
  }

  lemma {:induction false} RunClean(cfg: Config, tr: seq<State>, evs: seq<Event>, n: nat)
    requires Run(cfg, tr, evs) && n < |tr| && CleanStores(tr[0].st) && CleanPeers(cfg.auth)
    requires forall i :: 0 <= i < |evs| ==> CleanEvent(cfg, evs[i])
    ensures CleanState(tr[n])
    decreases n
  {
    if n > 0 {
      RunClean(cfg, tr, evs, n - 1);
      assert Enabled(tr[n - 1], evs[n - 1]);
      StepClean(cfg, tr[n - 1], evs[n - 1]);
    }
  }

  /** What the stores' own invariants say about files and memory is enough: at any
      moment, whatever the texts, reopening the files is the restart step. */
  lemma RestartReopens(d: Disk, s: State)
    requires OnDisk(d, s.st)
    ensures OwnDisk(d) && AfterRestart(s).st == Opened(d)
  {
    if s.st.queue.Some? {
      P.QueueResumes(d.queue.value.messages, s.st.queue.value.messages);
      P.QueueResumes(d.queue.value.approvals, s.st.queue.value.approvals);
    }
    if s.st.contacts.Some? {
      C.ContactsResume(d.contacts.value, s.st.contacts.value);
    }
  }

  /** The messages of the queues are values that Python can print. */
  ghost predicate PrintableStores(st: Stores) {
    st.queue.Some? ==>
      P.PrintableEntries(st.queue.value.messages) && P.PrintableEntries(st.queue.value.approvals)
  }

  /** A restart gives back the very queues and contacts that the process had if and
      only if no text in them has a surrogate pair to join. */
  lemma RestartKeepsExactly(s: State)
    requires PrintableStores(s.st)
    ensures AfterRestart(s).st.queue == s.st.queue && AfterRestart(s).st.contacts == s.st.contacts
            <==> CleanStores(s.st)
  {
    if s.st.queue.Some? {
      P.JoinEntriesExact(s.st.queue.value.messages);
      P.JoinEntriesExact(s.st.queue.value.approvals);
    }
    if s.st.contacts.Some? {
      C.JoinContactsExact(s.st.contacts.value);
    }
  }

  /** So in every run that began by opening any files of the stores' own shape, and
      has met no text with such a pair, restarts included. */
  lemma CleanRunsResume(cfg: Config, tr: seq<State>, evs: seq<Event>, n: nat, first: Disk)
    requires Run(cfg, tr, evs) && n < |tr| && OwnDisk(first) && tr[0].st == Opened(first)
    requires CleanPeers(cfg.auth) && forall i :: 0 <= i < |evs| ==> CleanEvent(cfg, evs[i])
    requires PrintableStores(tr[n].st)
    ensures AfterRestart(tr[n]).st == Stores(map[], {}, tr[n].st.queue, tr[n].st.contacts)
  {
    OpenedIsClean(first);
    RunClean(cfg, tr, evs, n);
    RestartKeepsExactly(tr[n]);
  }
}
