/** Whose messages the user is asked to answer: with authentication required,
    only those of senders who signed them. */
module Provenance {
  import opened Options
  import opened Json
  import opened JsonRoundTrip
  import opened JsonExact
  import opened Authentication
  import opened Contacts
  import opened Pending
  import opened Receiver
  import opened Protocol
  import opened Invariant
  import opened Autonomy

  /** A request accepted under a key bound to `url`, with a valid signature over
      bytes that decode to `message`, became the task `id`. */
  ghost predicate SignedRequest(cfg: Config, s: State, e: Event, id: TaskId, url: Str, message: Value) {
    && e.Receive? && e.id == id
    && cfg.decode(e.request.body).Body? && cfg.decode(e.request.body).message == message
    && SignedBy(cfg.auth, cfg.crypto, e.request, url)
    && Decide(cfg.auth, cfg.crypto, s.seen, e.request, e.clock).Accepted?
  }

  ghost predicate CameSigned(cfg: Config, tr: seq<State>, evs: seq<Event>, n: nat, id: TaskId, url: Str, message: Value)
    requires n <= |evs| < |tr|
  {
    exists m :: 0 <= m < n && SignedRequest(cfg, tr[m], evs[m], id, url, message)
  }

  lemma RouteNeedsPeer(contacts: Option<seq<Contact>>, peer: Option<Peer>, body: Body)
    requires RouteOf(true, contacts, peer, body).ToUser? || RouteOf(true, contacts, peer, body).ToChild?
    ensures peer.Some? && body.Body? && RouteOf(true, contacts, peer, body).url == peer.value.senderUrl
  {
  }

  /** A request that goes to the user or to a child session was signed by the
      sender it is attributed to. */
  lemma RouteIsSigned(cfg: Config, s: State, e: Event)
    requires cfg.auth.required && e.Receive?
    requires var r := RouteFor(cfg, s, e.request, e.clock); r.Some? && (r.value.ToUser? || r.value.ToChild?)
    ensures cfg.decode(e.request.body).Body?
    ensures SignedRequest(cfg, s, e, e.id, RouteFor(cfg, s, e.request, e.clock).value.url,
                          cfg.decode(e.request.body).message)
  {
    var v := Decide(cfg.auth, cfg.crypto, s.seen, e.request, e.clock);
    RouteNeedsPeer(s.st.contacts, if v.Accepted? then Some(v.peer) else None, cfg.decode(e.request.body));
    AcceptedIsSigned(cfg.auth, cfg.crypto, s.seen, e.request, e.clock);
  }

  lemma ReceiveAdds(cfg: Config, s: State, e: Event, s': State)
    requires cfg.auth.required && Enabled(s, e) && e.Receive? && s' == Step(cfg, s, e)
    ensures forall id :: id in s'.flights ==>
              || (id in s.flights && s'.flights[id] == s.flights[id])
              || SignedRequest(cfg, s, e, id, s'.flights[id].senderUrl, s'.flights[id].message)
    ensures forall m :: m in Messages(s') ==>
              m in Messages(s) || SignedRequest(cfg, s, e, m.taskId, m.senderUrl, m.message)
  {
    var r := RouteFor(cfg, s, e.request, e.clock);
    if r.Some? && (r.value.ToUser? || r.value.ToChild?) {
      RouteIsSigned(cfg, s, e);
    }
  }

  /** The same message under the same task and sender, up to the joining of
      surrogate pairs; its status may differ. */
  ghost predicate SameMessage(a: Entry, b: Entry) {
    && a.taskId == b.taskId && Join(a.senderUrl) == Join(b.senderUrl)
    && JoinTree(a.message) == JoinTree(b.message)
  }

  ghost predicate Carries(es: seq<Entry>, m: Entry) {
    exists d :: d in es && SameMessage(d, m)
  }

  lemma StatusCarries(es: seq<Entry>, id: TaskId, status: EntryStatus, m: Entry)
    requires m in WithStatus(es, id, status)
    ensures Carries(es, m)
  {
    var es' := WithStatus(es, id, status);
    var i :| 0 <= i < |es'| && es'[i] == m;
    assert es[i] in es && SameMessage(es[i], m);
  }

  lemma FinishAdds(cfg: Config, s: State, e: Event, m: Entry)
    requires Enabled(s, e) && e.Finish? && m in Messages(Step(cfg, s, e))
    ensures m in Messages(s) || (m.taskId in s.flights && s.flights[m.taskId].senderUrl == m.senderUrl
                                 && s.flights[m.taskId].message == m.message)
  {
  }

  /** Messages read back after a restart. */
  lemma RestartCarries(s: State, m: Entry)
    requires Inv(s) && m in Messages(AfterRestart(s))
    ensures Carries(Messages(s), m)
  {
    var es, js := Messages(s), Messages(AfterRestart(s));
    var i :| 0 <= i < |js| && js[i] == m;
    QueuedPlain(s);
    JoinIdentity(es[i].taskId);
    JoinTwice(es[i].senderUrl);
    JoinTreeTwice(es[i].message);
    assert es[i] in es && SameMessage(es[i], m);
  }

  /** Where a message entry after a step that is no request comes from. */
  lemma OthersCarry(cfg: Config, s: State, e: Event, m: Entry)
    requires Inv(s) && Enabled(s, e) && !e.Receive? && m in Messages(Step(cfg, s, e))
    ensures || Carries(Messages(s), m)
            || (m.taskId in s.flights && s.flights[m.taskId].senderUrl == m.senderUrl
                && s.flights[m.taskId].message == m.message)
  {
    if m in Messages(s) {
      assert SameMessage(m, m);
    } else if e.Finish? {
      FinishAdds(cfg, s, e, m);
    } else if e.Respond? {
      StatusCarries(Messages(s), e.id, Responded, m);
    } else if e.Dismiss? {
      StatusCarries(Messages(s), e.id, Dismissed, m);
    } else if e.Defer? {
      StatusCarries(Messages(s), e.id, Deferred, m);
    } else if e.Restart? {
      RestartCarries(s, m);
    }
  }

  lemma SignedStays(cfg: Config, tr: seq<State>, evs: seq<Event>, m: nat, n: nat, id: TaskId, url: Str, message: Value)
    requires m <= n <= |evs| < |tr| && CameSigned(cfg, tr, evs, m, id, url, message)
    ensures CameSigned(cfg, tr, evs, n, id, url, message)
  {
  }

  lemma OthersKeepFlights(cfg: Config, s: State, e: Event, id: TaskId)
    requires Enabled(s, e) && !e.Receive? && id in Step(cfg, s, e).flights
    ensures id in s.flights && Step(cfg, s, e).flights[id] == s.flights[id]
  {
  }

  /** When the request is suspended, it was signed by its sender. */
  ghost predicate FlightSigned(cfg: Config, tr: seq<State>, evs: seq<Event>, n: nat, id: TaskId)
    requires n <= |evs| < |tr|
  {
    id in tr[n].flights ==> CameSigned(cfg, tr, evs, n, id, tr[n].flights[id].senderUrl, tr[n].flights[id].message)
  }

  lemma FlightSignedNext(cfg: Config, tr: seq<State>, evs: seq<Event>, n: nat, id: TaskId)
    requires n < |evs| < |tr| && cfg.auth.required && FlightSigned(cfg, tr, evs, n, id)
    requires Enabled(tr[n], evs[n]) && tr[n + 1] == Step(cfg, tr[n], evs[n])
    ensures FlightSigned(cfg, tr, evs, n + 1, id)
  {
    if id in tr[n + 1].flights {
      var f := tr[n + 1].flights[id];
      if evs[n].Receive? {
        ReceiveAdds(cfg, tr[n], evs[n], tr[n + 1]);
      } else {
        OthersKeepFlights(cfg, tr[n], evs[n], id);
      }
      if SignedRequest(cfg, tr[n], evs[n], id, f.senderUrl, f.message) {
        SignedNow(cfg, tr, evs, n, id, f.senderUrl, f.message);
      } else {
        SignedStays(cfg, tr, evs, n, n + 1, id, f.senderUrl, f.message);
      }
    }
  }

  lemma SignedNow(cfg: Config, tr: seq<State>, evs: seq<Event>, n: nat, id: TaskId, url: Str, message: Value)
    requires n < |evs| < |tr| && SignedRequest(cfg, tr[n], evs[n], id, url, message)
    ensures CameSigned(cfg, tr, evs, n + 1, id, url, message)
  {
  }

  /** Every suspended request was signed by its sender. */
  lemma {:induction false} FlightsAreSigned(cfg: Config, tr: seq<State>, evs: seq<Event>, n: nat, id: TaskId)
    requires Run(cfg, tr, evs) && cfg.auth.required && n < |tr|
    ensures FlightSigned(cfg, tr, evs, n, id)
    decreases n
  {
    if n > 0 {
      FlightsAreSigned(cfg, tr, evs, n - 1, id);
      assert Enabled(tr[n - 1], evs[n - 1]);
      FlightSignedNext(cfg, tr, evs, n - 1, id);
    }
  }

  /** The message was in the files at the start, or came in a request signed by the
      very sender it is attributed to; restarts may have joined pairs in it since. */
  ghost predicate Vouched(cfg: Config, tr: seq<State>, evs: seq<Event>, n: nat, m: Entry)
    requires n <= |evs| < |tr|
  {
    || Carries(Messages(tr[0]), m)
    || (exists d :: SameMessage(d, m) && CameSigned(cfg, tr, evs, n, d.taskId, d.senderUrl, d.message))
  }

  lemma VouchedBySignature(cfg: Config, tr: seq<State>, evs: seq<Event>, n: nat, m: Entry)
    requires n <= |evs| < |tr| && CameSigned(cfg, tr, evs, n, m.taskId, m.senderUrl, m.message)
    ensures Vouched(cfg, tr, evs, n, m)
  {
    assert SameMessage(m, m);
  }

  lemma VouchedLater(cfg: Config, tr: seq<State>, evs: seq<Event>, n: nat, d: Entry, m: Entry)
    requires n < |evs| < |tr| && SameMessage(d, m) && Vouched(cfg, tr, evs, n, d)
    ensures Vouched(cfg, tr, evs, n + 1, m)
  {
    if Carries(Messages(tr[0]), d) {
      var c :| c in Messages(tr[0]) && SameMessage(c, d);
      assert SameMessage(c, m);
    } else {
      var c :| SameMessage(c, d) && CameSigned(cfg, tr, evs, n, c.taskId, c.senderUrl, c.message);
      SignedStays(cfg, tr, evs, n, n + 1, c.taskId, c.senderUrl, c.message);
      assert SameMessage(c, m);
    }
  }

  lemma VouchedNext(cfg: Config, tr: seq<State>, evs: seq<Event>, n: nat, m: Entry)
    requires n < |evs| < |tr| && cfg.auth.required && Inv(tr[n])
    requires Enabled(tr[n], evs[n]) && tr[n + 1] == Step(cfg, tr[n], evs[n]) && m in Messages(tr[n + 1])
    requires forall d :: d in Messages(tr[n]) ==> Vouched(cfg, tr, evs, n, d)
    requires FlightSigned(cfg, tr, evs, n, m.taskId)
    ensures Vouched(cfg, tr, evs, n + 1, m)
  {
    if evs[n].Receive? {
      ReceiveAdds(cfg, tr[n], evs[n], tr[n + 1]);
    } else {
      OthersCarry(cfg, tr[n], evs[n], m);
    }
    if m in Messages(tr[n]) {
      VouchedLater(cfg, tr, evs, n, m, m);
    } else if Carries(Messages(tr[n]), m) {
      var d :| d in Messages(tr[n]) && SameMessage(d, m);
      VouchedLater(cfg, tr, evs, n, d, m);
    } else {
      if evs[n].Receive? {
        SignedNow(cfg, tr, evs, n, m.taskId, m.senderUrl, m.message);
      } else {
        SignedStays(cfg, tr, evs, n, n + 1, m.taskId, m.senderUrl, m.message);
      }
      VouchedBySignature(cfg, tr, evs, n + 1, m);
    }
  }

  ghost predicate AllVouched(cfg: Config, tr: seq<State>, evs: seq<Event>, n: nat)
    requires n <= |evs| < |tr|
  {
    forall m :: m in Messages(tr[n]) ==> Vouched(cfg, tr, evs, n, m)
  }

  lemma AllVouchedFirst(cfg: Config, tr: seq<State>, evs: seq<Event>)
    requires |evs| < |tr|
    ensures AllVouched(cfg, tr, evs, 0)
  {
    forall m | m in Messages(tr[0]) ensures Vouched(cfg, tr, evs, 0, m) {
      assert SameMessage(m, m);
    }
  }

  lemma AllVouchedNext(cfg: Config, tr: seq<State>, evs: seq<Event>, n: nat)
    requires Run(cfg, tr, evs) && cfg.auth.required && n < |evs| && AllVouched(cfg, tr, evs, n)
    ensures AllVouched(cfg, tr, evs, n + 1)
  {
    RunInv(cfg, tr, evs, n);
    assert Enabled(tr[n], evs[n]);
    var s', p := tr[n + 1], n + 1;
    forall m | m in Messages(s') ensures Vouched(cfg, tr, evs, p, m) {
      FlightsAreSigned(cfg, tr, evs, n, m.taskId);
      VouchedNext(cfg, tr, evs, n, m);
    }
  }

  /** With authentication required, with or without a contact store: every message
      waiting for the user, escalated or not, was in the files at the start or came
      in a request signed by the very sender it is attributed to. */
  lemma {:induction false} MessagesAreSigned(cfg: Config, tr: seq<State>, evs: seq<Event>, n: nat)
    requires Run(cfg, tr, evs) && cfg.auth.required && n < |tr|
    ensures AllVouched(cfg, tr, evs, n)
    decreases n
  {
    if n == 0 {
      AllVouchedFirst(cfg, tr, evs);
    } else {
      MessagesAreSigned(cfg, tr, evs, n - 1);
      AllVouchedNext(cfg, tr, evs, n - 1);
    }
  }
}
