/** Whatever waits or works in a run came there by a request, or a child session's
    answer, of the right kind. */
module Origins {
  import opened Options
  import opened JsonRoundTrip
  import opened JsonExact
  import opened Pending
  import opened Receiver
  import opened Protocol
  import opened Invariant
  import opened Routing

  /** The two queues. */
  datatype Kind = Message | Approval

  function Items(s: State, kind: Kind): seq<Entry> {
    if kind.Message? then Messages(s) else Approvals(s)
  }

  /** The entry of a request: its id, sender, name and message, pending. */
  function EntryOf(cfg: Config, s: State, e: Event, escalated: Option<bool>): Entry
    requires e.Receive? && BodyOf(cfg, e).Body?
  {
    var body := BodyOf(cfg, e);
    Entry(e.id, SenderOf(cfg, s, e), body.senderName, body.message, e.now, Pending, escalated)
  }

  /** The step puts this entry into the queue: a taken request of a first contact, one
      of a known sender, or an answer of a child session that does not stand. */
  ghost predicate Puts(cfg: Config, s: State, e: Event, kind: Kind, d: Entry) {
    match e
    case Receive(_, _, _, _) =>
      && IsTaken(cfg, s, e)
      && (if kind.Approval? then WantsApproval(cfg, s, e) && d == EntryOf(cfg, s, e, None)
          else WantsUser(cfg, s, e) && d == EntryOf(cfg, s, e, Some(false)))
    case Finish(id, outcome, now) =>
      && kind.Message? && id in s.flights && outcome.Answered? && !AnswerStands(cfg, s.flights[id], outcome)
      && var f := s.flights[id];
         d == Entry(id, f.senderUrl, f.senderName, f.message, now, Pending, Some(true))
    case _ => false
  }

  /** The same entry but for its status and for surrogate pairs joined since. */
  ghost predicate SameItem(a: Entry, b: Entry) {
    && a.taskId == b.taskId && a.escalated == b.escalated
    && Join(a.senderUrl) == Join(b.senderUrl) && Join(a.senderName) == Join(b.senderName)
    && JoinTree(a.message) == JoinTree(b.message) && Join(a.receivedAt) == Join(b.receivedAt)
  }

  ghost predicate Holds(es: seq<Entry>, m: Entry) {
    exists d :: d in es && SameItem(d, m)
  }

  lemma StatusHolds(es: seq<Entry>, id: TaskId, status: EntryStatus, m: Entry)
    requires m in WithStatus(es, id, status)
    ensures Holds(es, m)
  {
    var es' := WithStatus(es, id, status);
    var i :| 0 <= i < |es'| && es'[i] == m;
    assert es[i] in es && SameItem(es[i], m);
  }

  lemma JoinedHolds(es: seq<Entry>, m: Entry)
    requires m in JoinEntries(es) && forall i :: 0 <= i < |es| ==> PairFree(es[i].taskId)
    ensures Holds(es, m)
  {
    var i :| 0 <= i < |es| && JoinEntries(es)[i] == m;
    JoinIdentity(es[i].taskId);
    JoinTwice(es[i].senderUrl);
    JoinTwice(es[i].senderName);
    JoinTwice(es[i].receivedAt);
    JoinTreeTwice(es[i].message);
    assert es[i] in es && SameItem(es[i], m);
  }

  lemma ReceivePuts(cfg: Config, s: State, e: Event, kind: Kind, m: Entry)
    requires Inv(s) && Enabled(s, e) && e.Receive? && m in Items(Step(cfg, s, e), kind)
    ensures m in Items(s, kind) || Puts(cfg, s, e, kind, m)
  {
    if IsRefused(cfg, s, e) {
      RefusedLeavesNothing(cfg, s, e);
    } else {
      var tier := ExactlyOneEnd(cfg, s, e);
      if WantsApproval(cfg, s, e) {
        FirstContactWaits(cfg, s, e);
      } else if WantsUser(cfg, s, e) {
        KnownSenderWaits(cfg, s, e);
      } else {
        TrustedSenderWorks(cfg, s, e, tier);
      }
    }
  }

  lemma AnswerOrDecisionPuts(cfg: Config, s: State, e: Event, kind: Kind, m: Entry)
    requires Inv(s) && Enabled(s, e) && (e.Approve? || e.Block? || e.Respond? || e.Dismiss? || e.Defer?)
    requires m in Items(Step(cfg, s, e), kind)
    ensures m in Items(s, kind) || Holds(Items(s, kind), m)
  {
    if m !in Items(s, kind) {
      if kind.Approval? {
        var id := PendingApproval(s.st.queue.value, e.agent).value.taskId;
        StatusHolds(Approvals(s), id, if e.Approve? then Approved else Blocked, m);
      } else {
        StatusHolds(Messages(s), e.id,
          match e case Respond(_, _) => Responded case Dismiss(_) => Dismissed case _ => Deferred, m);
      }
    }
  }

  /** Where an entry after a step comes from. */
  lemma StepPuts(cfg: Config, s: State, e: Event, kind: Kind, m: Entry)
    requires Inv(s) && Enabled(s, e) && m in Items(Step(cfg, s, e), kind)
    ensures Holds(Items(s, kind), m) || Puts(cfg, s, e, kind, m)
  {
    assert SameItem(m, m);
    if e.Receive? {
      ReceivePuts(cfg, s, e, kind, m);
    } else if e.Finish? {
      FinishEffect(cfg, s, e);
    } else if e.Restart? {
      QueuedPlain(s);
      JoinedHolds(Items(s, kind), m);
    } else if e.Approve? || e.Block? || e.Respond? || e.Dismiss? || e.Defer? {
      AnswerOrDecisionPuts(cfg, s, e, kind, m);
    }
  }

  /** The entry was in the files at the start, or some earlier step put it there. */
  ghost predicate HasOrigin(cfg: Config, tr: seq<State>, evs: seq<Event>, n: nat, kind: Kind, m: Entry)
    requires n <= |evs| < |tr|
  {
    Holds(Items(tr[0], kind), m) || exists k, d :: 0 <= k < n && PutAt(cfg, tr, evs, k, kind, d) && SameItem(d, m)
  }

  ghost predicate PutAt(cfg: Config, tr: seq<State>, evs: seq<Event>, k: nat, kind: Kind, d: Entry)
    requires k < |evs| < |tr|
  {
    Puts(cfg, tr[k], evs[k], kind, d)
  }

  lemma OriginStays(cfg: Config, tr: seq<State>, evs: seq<Event>, n: nat, kind: Kind, c: Entry, m: Entry)
    requires n < |evs| < |tr| && HasOrigin(cfg, tr, evs, n, kind, c) && SameItem(c, m)
    ensures HasOrigin(cfg, tr, evs, n + 1, kind, m)
  {
    if Holds(Items(tr[0], kind), c) {
      var d :| d in Items(tr[0], kind) && SameItem(d, c);
      assert SameItem(d, m);
    } else {
      var k, d :| 0 <= k < n && PutAt(cfg, tr, evs, k, kind, d) && SameItem(d, c);
      assert SameItem(d, m);
    }
  }

  lemma OriginNow(cfg: Config, tr: seq<State>, evs: seq<Event>, n: nat, kind: Kind, m: Entry)
    requires n < |evs| < |tr| && Puts(cfg, tr[n], evs[n], kind, m)
    ensures HasOrigin(cfg, tr, evs, n + 1, kind, m)
  {
    assert PutAt(cfg, tr, evs, n, kind, m) && SameItem(m, m);
  }

  ghost predicate AllOriginate(cfg: Config, tr: seq<State>, evs: seq<Event>, n: nat, kind: Kind)
    requires n <= |evs| < |tr|
  {
    forall m :: m in Items(tr[n], kind) ==> HasOrigin(cfg, tr, evs, n, kind, m)
  }

  lemma OriginNext(cfg: Config, tr: seq<State>, evs: seq<Event>, n: nat, kind: Kind, m: Entry)
    requires n < |evs| < |tr| && AllOriginate(cfg, tr, evs, n, kind) && Inv(tr[n])
    requires Enabled(tr[n], evs[n]) && m in Items(Step(cfg, tr[n], evs[n]), kind)
    ensures HasOrigin(cfg, tr, evs, n + 1, kind, m)
  {
    StepPuts(cfg, tr[n], evs[n], kind, m);
    if Holds(Items(tr[n], kind), m) {
      var c :| c in Items(tr[n], kind) && SameItem(c, m);
      OriginStays(cfg, tr, evs, n, kind, c, m);
    } else {
      OriginNow(cfg, tr, evs, n, kind, m);
    }
  }

  lemma AllOriginateNext(cfg: Config, tr: seq<State>, evs: seq<Event>, n: nat, kind: Kind)
    requires Run(cfg, tr, evs) && n < |evs| && AllOriginate(cfg, tr, evs, n, kind)
    ensures AllOriginate(cfg, tr, evs, n + 1, kind)
  {
    RunInv(cfg, tr, evs, n);
    assert Enabled(tr[n], evs[n]);
    var s', p := tr[n + 1], n + 1;
    forall m | m in Items(s', kind) ensures HasOrigin(cfg, tr, evs, p, kind, m) {
      OriginNext(cfg, tr, evs, n, kind, m);
    }
  }

  lemma AllOriginateFirst(cfg: Config, tr: seq<State>, evs: seq<Event>, kind: Kind)
    requires |evs| < |tr|
    ensures AllOriginate(cfg, tr, evs, 0, kind)
  {
    forall m | m in Items(tr[0], kind) ensures HasOrigin(cfg, tr, evs, 0, kind, m) {
      assert SameItem(m, m);
    }
  }

  /** In every run: an approval waits only because a first contact asked, a message
      that is not escalated only because a known sender did, an escalated one only
      because a child session's answer did not stand; or it was loaded. */
  lemma {:induction false} EntriesHaveOrigin(cfg: Config, tr: seq<State>, evs: seq<Event>, n: nat, kind: Kind)
    requires Run(cfg, tr, evs) && n < |tr|
    ensures AllOriginate(cfg, tr, evs, n, kind)
    decreases n
  {
    if n == 0 {
      AllOriginateFirst(cfg, tr, evs, kind);
    } else {
      EntriesHaveOrigin(cfg, tr, evs, n - 1, kind);
      AllOriginateNext(cfg, tr, evs, n - 1, kind);
    }
  }

  // ---------------------------------------------------------- suspended requests

  /** The step suspends this request: a taken one of a contact of another tier. */
  ghost predicate Suspends(cfg: Config, s: State, e: Event, id: TaskId, f: Flight) {
    && IsTaken(cfg, s, e) && e.id == id && WantsChild(cfg, s, e, f.tier)
    && f == Flight(SenderOf(cfg, s, e), BodyOf(cfg, e).senderName, BodyOf(cfg, e).message, f.tier)
  }

  lemma FlightsAfter(cfg: Config, s: State, e: Event, id: TaskId)
    requires Inv(s) && Enabled(s, e) && id in Step(cfg, s, e).flights
    ensures || (id in s.flights && Step(cfg, s, e).flights[id] == s.flights[id])
            || Suspends(cfg, s, e, id, Step(cfg, s, e).flights[id])
  {
    if e.Receive? {
      if IsRefused(cfg, s, e) {
        RefusedLeavesNothing(cfg, s, e);
      } else {
        var tier := ExactlyOneEnd(cfg, s, e);
        if WantsApproval(cfg, s, e) {
          FirstContactWaits(cfg, s, e);
        } else if WantsUser(cfg, s, e) {
          KnownSenderWaits(cfg, s, e);
        } else {
          TrustedSenderWorks(cfg, s, e, tier);
        }
      }
    }
  }

  ghost predicate SuspendedAt(cfg: Config, tr: seq<State>, evs: seq<Event>, k: nat, id: TaskId, f: Flight)
    requires k < |evs| < |tr|
  {
    Suspends(cfg, tr[k], evs[k], id, f)
  }

  ghost predicate FlightHasOrigin(cfg: Config, tr: seq<State>, evs: seq<Event>, n: nat, id: TaskId)
    requires n <= |evs| < |tr|
  {
    id in tr[n].flights ==> exists k :: 0 <= k < n && SuspendedAt(cfg, tr, evs, k, id, tr[n].flights[id])
  }

  lemma FlightOriginNext(cfg: Config, tr: seq<State>, evs: seq<Event>, n: nat, id: TaskId)
    requires n < |evs| < |tr| && FlightHasOrigin(cfg, tr, evs, n, id) && Inv(tr[n])
    requires Enabled(tr[n], evs[n]) && tr[n + 1] == Step(cfg, tr[n], evs[n])
    ensures FlightHasOrigin(cfg, tr, evs, n + 1, id)
  {
    if id in tr[n + 1].flights {
      var f := tr[n + 1].flights[id];
      FlightsAfter(cfg, tr[n], evs[n], id);
      if id in tr[n].flights && tr[n].flights[id] == f {
        var k :| 0 <= k < n && SuspendedAt(cfg, tr, evs, k, id, f);
        assert SuspendedAt(cfg, tr, evs, k, id, f);
      } else {
        assert SuspendedAt(cfg, tr, evs, n, id, f);
      }
    }
  }

  /** Every suspended request of every run is a taken one of a contact, and carries the
      tier of its oldest entry, or, without a contact store, one taken while no
      authentication was required. */
  lemma {:induction false} FlightsHaveOrigin(cfg: Config, tr: seq<State>, evs: seq<Event>, n: nat, id: TaskId)
    requires Run(cfg, tr, evs) && n < |tr|
    ensures FlightHasOrigin(cfg, tr, evs, n, id)
    decreases n
  {
    if n > 0 {
      FlightsHaveOrigin(cfg, tr, evs, n - 1, id);
      RunInv(cfg, tr, evs, n - 1);
      assert Enabled(tr[n - 1], evs[n - 1]);
      FlightOriginNext(cfg, tr, evs, n - 1, id);
    }
  }
}
