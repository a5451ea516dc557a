/** Why a request is answered autonomously: an authenticated sender whose tier
    the user gave. */
module Autonomy {
  import opened Options
  import opened Json
  import opened JsonRoundTrip
  import opened JsonExact
  import opened Authentication
  import opened Contacts
  import opened Pending
  import opened Registry
  import opened Receiver
  import opened Protocol
  import opened Invariant
  import opened ReceiverSafety

  /** The user's step, taken in state `s`, succeeds in giving the URL the tier. */
  predicate Gives(s: State, e: Event, url: Str, tier: Str) {
    match e
    case Approve(agent, t, _) => agent == url && t == tier && ApproveResult(s.st, agent) == Success
    case AddContact(agent, _, t, _) => agent == url && t == tier && AddContactResult(s.st, agent) == Success
    case Trust(agent, t) => agent == url && t == tier && TrustResult(s.st, agent, t) == Success
    case _ => false
  }

  /** What such a step leaves: a contact of that URL with that tier. */
  lemma GivingTakesEffect(cfg: Config, s: State, e: Event, url: Str, tier: Str)
    requires Inv(s) && Enabled(s, e) && Gives(s, e, url, tier)
    ensures var st := Step(cfg, s, e).st;
            st.contacts.Some? && exists c :: c in st.contacts.value && c.url == url && c.tier == tier
  {
    var cs, cs' := s.st.contacts.value, Step(cfg, s, e).st.contacts.value;
    if e.Approve? {
      PendingApprovalFound(s, e.agent);
    }
    var i := if e.Trust? then Find(cs, url) else |cs|;
    assert cs'[i] in cs' && cs'[i].url == url && cs'[i].tier == tier;
  }

  /** The same URL and tier, up to the joining of surrogate pairs. */
  predicate Alike(url: Str, tier: Str, url': Str, tier': Str) {
    Join(url) == Join(url') && Join(tier) == Join(tier')
  }

  ghost predicate GivesAlike(s: State, e: Event, url: Str, tier: Str) {
    exists u, t :: Gives(s, e, u, t) && Alike(u, t, url, tier)
  }

  /** The tier was in the loaded contact file or comes from an earlier approve,
      add_contact or trust step of the local user; restarts may have joined
      surrogate pairs in URL and tier since. */
  ghost predicate TierHasCause(tr: seq<State>, evs: seq<Event>, n: nat, url: Str, tier: Str)
    requires n <= |evs| < |tr| && tr[0].st.contacts.Some?
  {
    || (exists c :: c in tr[0].st.contacts.value && Alike(c.url, c.tier, url, tier))
    || (exists j :: 0 <= j < n && GivesAlike(tr[j], evs[j], url, tier))
  }

  ghost predicate HasAlike(cs: seq<Contact>, url: Str, tier: Str) {
    exists d :: d in cs && Alike(d.url, d.tier, url, tier)
  }

  lemma RestartContacts(cs: seq<Contact>, c: Contact)
    requires c in JoinContacts(cs)
    ensures HasAlike(cs, c.url, c.tier)
  {
    var i :| 0 <= i < |cs| && JoinContacts(cs)[i] == c;
    JoinTwice(cs[i].url);
    JoinTwice(cs[i].tier);
    assert cs[i] in cs && Alike(cs[i].url, cs[i].tier, c.url, c.tier);
  }

  lemma OwnContacts(cfg: Config, s: State, e: Event, c: Contact)
    requires Inv(s) && Enabled(s, e) && s.st.contacts.Some? && !e.Restart?
    requires Step(cfg, s, e).st.contacts.Some? && c in Step(cfg, s, e).st.contacts.value
    ensures || (exists d :: d in s.st.contacts.value && d.url == c.url && d.tier == c.tier)
            || Gives(s, e, c.url, c.tier)
  {
    if e.Approve? && ApproveResult(s.st, e.agent) == Success {
      PendingApprovalFound(s, e.agent);
    }
  }

  lemma ContactsStay(cfg: Config, s: State, e: Event)
    requires Enabled(s, e)
    ensures Step(cfg, s, e).st.contacts.Some? == s.st.contacts.Some?
  {
  }

  lemma StepContacts(cfg: Config, s: State, e: Event, c: Contact)
    requires Inv(s) && Enabled(s, e) && s.st.contacts.Some?
    requires Step(cfg, s, e).st.contacts.Some? && c in Step(cfg, s, e).st.contacts.value
    ensures HasAlike(s.st.contacts.value, c.url, c.tier) || Gives(s, e, c.url, c.tier)
  {
    if e.Restart? {
      RestartContacts(s.st.contacts.value, c);
    } else {
      OwnContacts(cfg, s, e, c);
      if d :| d in s.st.contacts.value && d.url == c.url && d.tier == c.tier {
        assert Alike(d.url, d.tier, c.url, c.tier);
      }
    }
  }

  lemma CauseStays(tr: seq<State>, evs: seq<Event>, n: nat, url: Str, tier: Str, url': Str, tier': Str)
    requires n < |evs| < |tr| && tr[0].st.contacts.Some? && Alike(url, tier, url', tier')
    requires TierHasCause(tr, evs, n, url, tier)
    ensures TierHasCause(tr, evs, n + 1, url', tier')
  {
    if c :| c in tr[0].st.contacts.value && Alike(c.url, c.tier, url, tier) {
      assert Alike(c.url, c.tier, url', tier');
    } else {
      var j :| 0 <= j < n && GivesAlike(tr[j], evs[j], url, tier);
      var u, t :| Gives(tr[j], evs[j], u, t) && Alike(u, t, url, tier);
      assert Alike(u, t, url', tier');
    }
  }

  lemma GivenIsCause(tr: seq<State>, evs: seq<Event>, n: nat, url: Str, tier: Str)
    requires n < |evs| < |tr| && tr[0].st.contacts.Some?
    requires Gives(tr[n], evs[n], url, tier)
    ensures TierHasCause(tr, evs, n + 1, url, tier)
  {
    assert Alike(url, tier, url, tier);
    assert GivesAlike(tr[n], evs[n], url, tier);
  }

  /** Every contact has the tier of a loaded contact of its URL, or one that a
      successful earlier step gave that URL. */
  ghost predicate AllCaused(tr: seq<State>, evs: seq<Event>, n: nat)
    requires n <= |evs| < |tr| && tr[0].st.contacts.Some?
  {
    && tr[n].st.contacts.Some?
    && forall c :: c in tr[n].st.contacts.value ==> TierHasCause(tr, evs, n, c.url, c.tier)
  }

  lemma CausesStep(cfg: Config, tr: seq<State>, evs: seq<Event>, n: nat, c: Contact)
    requires n < |evs| < |tr| && tr[0].st.contacts.Some? && AllCaused(tr, evs, n)
    requires Inv(tr[n]) && Enabled(tr[n], evs[n]) && tr[n + 1] == Step(cfg, tr[n], evs[n])
    requires tr[n + 1].st.contacts.Some? && c in tr[n + 1].st.contacts.value
    ensures TierHasCause(tr, evs, n + 1, c.url, c.tier)
  {
    StepContacts(cfg, tr[n], evs[n], c);
    if HasAlike(tr[n].st.contacts.value, c.url, c.tier) {
      var d :| d in tr[n].st.contacts.value && Alike(d.url, d.tier, c.url, c.tier);
      CauseStays(tr, evs, n, d.url, d.tier, c.url, c.tier);
    } else {
      GivenIsCause(tr, evs, n, c.url, c.tier);
    }
  }

  lemma AllCausedNext(cfg: Config, tr: seq<State>, evs: seq<Event>, n: nat)
    requires Run(cfg, tr, evs) && tr[0].st.contacts.Some? && n < |evs| && AllCaused(tr, evs, n)
    ensures AllCaused(tr, evs, n + 1)
  {
    RunInv(cfg, tr, evs, n);
    assert Enabled(tr[n], evs[n]);
    ContactsStay(cfg, tr[n], evs[n]);
    forall c | c in tr[n + 1].st.contacts.value ensures TierHasCause(tr, evs, n + 1, c.url, c.tier) {
      CausesStep(cfg, tr, evs, n, c);
    }
  }

  lemma AllCausedFirst(tr: seq<State>, evs: seq<Event>)
    requires |evs| < |tr| && tr[0].st.contacts.Some?
    ensures AllCaused(tr, evs, 0)
  {
    forall c | c in tr[0].st.contacts.value ensures TierHasCause(tr, evs, 0, c.url, c.tier) {
      assert Alike(c.url, c.tier, c.url, c.tier);
    }
  }

  lemma {:induction false} ContactsHaveCauses(cfg: Config, tr: seq<State>, evs: seq<Event>, n: nat)
    requires Run(cfg, tr, evs) && tr[0].st.contacts.Some? && n < |tr|
    ensures AllCaused(tr, evs, n)
    decreases n
  {
    if n == 0 {
      AllCausedFirst(tr, evs);
    } else {
      ContactsHaveCauses(cfg, tr, evs, n - 1);
      AllCausedNext(cfg, tr, evs, n - 1);
    }
  }

  /** The restart has to join a surrogate pair in its contacts. */
  ghost predicate RestartJoins(s: State, e: Event) {
    e.Restart? && s.st.contacts.Some? && !CleanContacts(s.st.contacts.value)
  }

  /** From step `j` to step `n` this has been the URL's effective tier, ever since
      the files were loaded at the start, or a successful step of the local user gave
      it, or a restart had to join surrogate pairs in the contact file. */
  ghost predicate TierSince(tr: seq<State>, evs: seq<Event>, j: nat, n: nat, url: Str, tier: Str)
    requires j <= n <= |evs| < |tr|
  {
    && (j == 0 || Gives(tr[j - 1], evs[j - 1], url, tier) || RestartJoins(tr[j - 1], evs[j - 1]))
    && forall k :: j <= k <= n ==>
         tr[k].st.contacts.Some? && EffectiveTier(tr[k].st.contacts.value, url) == Some(tier)
  }

  lemma ApproveTier(s: State, e: Event, url: Str, tier: Str)
    requires Inv(s) && e.Approve? && ApproveResult(s.st, e.agent) == Success
    ensures var st := AfterApprove(s.st, e.agent, e.tier, e.now);
            && st.contacts.Some?
            && (EffectiveTier(st.contacts.value, url) == Some(tier) ==>
                  EffectiveTier(s.st.contacts.value, url) == Some(tier) || Gives(s, e, url, tier))
  {
    var a := PendingApproval(s.st.queue.value, e.agent).value;
    PendingApprovalFound(s, e.agent);
    TierChanges(s.st.contacts.value, e.agent, a.senderName, e.tier, e.now, url);
  }

  lemma OthersKeepContacts(cfg: Config, s: State, e: Event)
    requires Enabled(s, e) && !e.AddContact? && !e.Trust? && !e.Restart?
    requires e.Approve? ==> ApproveResult(s.st, e.agent) != Success
    ensures Step(cfg, s, e).st.contacts == s.st.contacts
  {
  }

  lemma CleanRestart(s: State)
    requires s.st.contacts.Some? && CleanContacts(s.st.contacts.value)
    ensures AfterRestart(s).st.contacts == s.st.contacts
  {
    JoinContactsExact(s.st.contacts.value);
  }

  lemma TierStep(cfg: Config, s: State, e: Event, url: Str, tier: Str)
    requires Inv(s) && Enabled(s, e) && s.st.contacts.Some?
    ensures var st := Step(cfg, s, e).st;
            && st.contacts.Some?
            && (EffectiveTier(st.contacts.value, url) == Some(tier) ==>
                  EffectiveTier(s.st.contacts.value, url) == Some(tier) || Gives(s, e, url, tier) || RestartJoins(s, e))
  {
    var cs := s.st.contacts.value;
    if e.Approve? && ApproveResult(s.st, e.agent) == Success {
      ApproveTier(s, e, url, tier);
    } else if e.AddContact? {
      TierChanges(cs, e.agent, e.name, e.tier, e.now, url);
    } else if e.Trust? {
      TierChanges(cs, e.agent, [], e.tier, [], url);
    } else if e.Restart? {
      if CleanContacts(cs) {
        CleanRestart(s);
      }
    } else {
      OthersKeepContacts(cfg, s, e);
    }
  }

  ghost predicate HasTierStart(tr: seq<State>, evs: seq<Event>, n: nat, url: Str, tier: Str)
    requires n <= |evs| < |tr|
  {
    exists j :: 0 <= j <= n && TierSince(tr, evs, j, n, url, tier)
  }

  ghost predicate IsTier(s: State, url: Str, tier: Str) {
    s.st.contacts.Some? && EffectiveTier(s.st.contacts.value, url) == Some(tier)
  }

  lemma TierExtends(tr: seq<State>, evs: seq<Event>, n: nat, url: Str, tier: Str)
    requires n < |evs| < |tr| && HasTierStart(tr, evs, n, url, tier) && IsTier(tr[n + 1], url, tier)
    ensures HasTierStart(tr, evs, n + 1, url, tier)
  {
    var j :| 0 <= j <= n && TierSince(tr, evs, j, n, url, tier);
    assert TierSince(tr, evs, j, n + 1, url, tier);
  }

  lemma TierStarts(tr: seq<State>, evs: seq<Event>, n: nat, url: Str, tier: Str)
    requires n <= |evs| < |tr| && IsTier(tr[n], url, tier)
    requires n == 0 || Gives(tr[n - 1], evs[n - 1], url, tier) || RestartJoins(tr[n - 1], evs[n - 1])
    ensures HasTierStart(tr, evs, n, url, tier)
  {
    assert TierSince(tr, evs, n, n, url, tier);
  }

  /** When this is the effective tier, it has a start. */
  ghost predicate TierAccounted(tr: seq<State>, evs: seq<Event>, n: nat, url: Str, tier: Str)
    requires n <= |evs| < |tr|
  {
    tr[n].st.contacts.Some? && (IsTier(tr[n], url, tier) ==> HasTierStart(tr, evs, n, url, tier))
  }

  lemma TierAccountedStep(cfg: Config, tr: seq<State>, evs: seq<Event>, n: nat, url: Str, tier: Str)
    requires n < |evs| < |tr| && TierAccounted(tr, evs, n, url, tier)
    requires Inv(tr[n]) && Enabled(tr[n], evs[n]) && tr[n + 1] == Step(cfg, tr[n], evs[n])
    ensures TierAccounted(tr, evs, n + 1, url, tier)
  {
    TierStep(cfg, tr[n], evs[n], url, tier);
    if IsTier(tr[n + 1], url, tier) {
      if IsTier(tr[n], url, tier) {
        TierExtends(tr, evs, n, url, tier);
      } else {
        TierStarts(tr, evs, n + 1, url, tier);
      }
    }
  }

  /** A contact store stays one, and every effective tier has a start. */
  lemma {:induction false} TierHasStart(cfg: Config, tr: seq<State>, evs: seq<Event>, n: nat, url: Str, tier: Str)
    requires Run(cfg, tr, evs) && tr[0].st.contacts.Some? && n < |tr|
    ensures TierAccounted(tr, evs, n, url, tier)
    decreases n
  {
    if n > 0 {
      TierHasStart(cfg, tr, evs, n - 1, url, tier);
      RunInv(cfg, tr, evs, n - 1);
      assert Enabled(tr[n - 1], evs[n - 1]);
      TierAccountedStep(cfg, tr, evs, n - 1, url, tier);
    } else if IsTier(tr[0], url, tier) {
      TierStarts(tr, evs, 0, url, tier);
    }
  }

  /** At step `n` the request was accepted under a configured key bound to the
      sender's URL, with a valid signature over the body, and the sender's
      effective tier, not "known", has a start. */
  ghost predicate StartedWithCause(cfg: Config, tr: seq<State>, evs: seq<Event>, n: nat, id: TaskId, f: Flight)
    requires n < |evs| < |tr|
  {
    && evs[n].Receive? && evs[n].id == id
    && SignedBy(cfg.auth, cfg.crypto, evs[n].request, f.senderUrl)
    && Decide(cfg.auth, cfg.crypto, tr[n].seen, evs[n].request, evs[n].clock).Accepted?
    && f.tier != KNOWN
    && HasTierStart(tr, evs, n, f.senderUrl, f.tier)
  }

  ghost predicate HasCause(cfg: Config, tr: seq<State>, evs: seq<Event>, n: nat, id: TaskId, f: Flight)
    requires n <= |evs| < |tr|
  {
    exists m :: 0 <= m < n && StartedWithCause(cfg, tr, evs, m, id, f)
  }

  lemma CauseRemains(cfg: Config, tr: seq<State>, evs: seq<Event>, m: nat, n: nat, id: TaskId, f: Flight)
    requires m <= n <= |evs| < |tr| && HasCause(cfg, tr, evs, m, id, f)
    ensures HasCause(cfg, tr, evs, n, id, f)
  {
  }

  ghost predicate SignedBy(auth: AuthConfig, crypto: Crypto, r: Request, url: Str) {
    var h := r.headers;
    && h.keyId.Some? && h.timestamp.Some? && h.nonce.Some? && h.signature.Some?
    && h.keyId.value in auth.peers
    && auth.peers[h.keyId.value].PeerDict? && auth.peers[h.keyId.value].senderUrl == Some(url)
    && auth.peers[h.keyId.value].secret.Some?
    && h.signature.value == crypto.hmac(auth.peers[h.keyId.value].secret.value,
                                        SigningInput(h.timestamp.value, h.nonce.value, crypto.sha256(r.body)))
  }

  lemma AcceptedIsSigned(auth: AuthConfig, crypto: Crypto, seen: NonceCache, r: Request, now: int)
    requires Decide(auth, crypto, seen, r, now).Accepted?
    ensures SignedBy(auth, crypto, r, Decide(auth, crypto, seen, r, now).peer.senderUrl)
  {
  }

  lemma StartIsSigned(cfg: Config, s: State, e: Event, id: TaskId)
    requires Enabled(s, e) && cfg.auth.required && s.st.contacts.Some?
    requires id in Step(cfg, s, e).flights && id !in s.flights
    ensures var f := Step(cfg, s, e).flights[id];
            && e.Receive? && e.id == id && f.tier != KNOWN
            && SignedBy(cfg.auth, cfg.crypto, e.request, f.senderUrl)
            && Decide(cfg.auth, cfg.crypto, s.seen, e.request, e.clock).Accepted?
            && EffectiveTier(s.st.contacts.value, f.senderUrl) == Some(f.tier)
  {
    AcceptedIsSigned(cfg.auth, cfg.crypto, s.seen, e.request, e.clock);
  }

  /** When the request is suspended, it was started with a cause. */
  ghost predicate FlightAccounted(cfg: Config, tr: seq<State>, evs: seq<Event>, n: nat, id: TaskId)
    requires n <= |evs| < |tr|
  {
    id in tr[n].flights ==> HasCause(cfg, tr, evs, n, id, tr[n].flights[id])
  }

  lemma CauseBegins(cfg: Config, tr: seq<State>, evs: seq<Event>, n: nat, id: TaskId, f: Flight)
    requires n < |evs| < |tr| && StartedWithCause(cfg, tr, evs, n, id, f)
    ensures HasCause(cfg, tr, evs, n + 1, id, f)
  {
  }

  lemma FlightAccountedStep(cfg: Config, tr: seq<State>, evs: seq<Event>, n: nat, id: TaskId)
    requires n < |evs| < |tr| && cfg.auth.required && FlightAccounted(cfg, tr, evs, n, id)
    requires Inv(tr[n]) && Enabled(tr[n], evs[n]) && tr[n + 1] == Step(cfg, tr[n], evs[n])
    requires id in tr[n + 1].flights
    requires TierAccounted(tr, evs, n, tr[n + 1].flights[id].senderUrl, tr[n + 1].flights[id].tier)
    ensures FlightAccounted(cfg, tr, evs, n + 1, id)
  {
    var f := tr[n + 1].flights[id];
    if id in tr[n].flights {
      FlightUnchanged(cfg, tr[n], evs[n], id);
      CauseRemains(cfg, tr, evs, n, n + 1, id, f);
    } else {
      StartIsSigned(cfg, tr[n], evs[n], id);
      CauseBegins(cfg, tr, evs, n, id, f);
    }
  }

  lemma {:induction false} FlightHasCause(cfg: Config, tr: seq<State>, evs: seq<Event>, n: nat, id: TaskId)
    requires Run(cfg, tr, evs) && cfg.auth.required && tr[0].st.contacts.Some? && n < |tr|
    ensures FlightAccounted(cfg, tr, evs, n, id)
    decreases n
  {
    if n > 0 && id in tr[n].flights {
      FlightHasCause(cfg, tr, evs, n - 1, id);
      RunInv(cfg, tr, evs, n - 1);
      TierHasStart(cfg, tr, evs, n - 1, tr[n].flights[id].senderUrl, tr[n].flights[id].tier);
      assert Enabled(tr[n - 1], evs[n - 1]);
      FlightAccountedStep(cfg, tr, evs, n - 1, id);
    }
  }

  /** Autonomy has a cause: with authentication required and a contact store, every
      WORKING task of every run was started by such a request. */
  lemma WorkingHasCause(cfg: Config, tr: seq<State>, evs: seq<Event>, n: nat, id: TaskId)
    requires Run(cfg, tr, evs) && cfg.auth.required && tr[0].st.contacts.Some? && n < |tr|
    requires id in tr[n].st.tasks && tr[n].st.tasks[id].status == Working
    ensures id in tr[n].flights && HasCause(cfg, tr, evs, n, id, tr[n].flights[id])
  {
    WorkingIsSuspended(cfg, tr, evs, n, id);
    FlightHasCause(cfg, tr, evs, n, id);
  }

  lemma FlightUnchanged(cfg: Config, s: State, e: Event, id: TaskId)
    requires Inv(s) && Enabled(s, e) && id in s.flights && id in Step(cfg, s, e).flights
    ensures Step(cfg, s, e).flights[id] == s.flights[id]
  {
    assert ViewOk(s.st.queue.Some?, ViewOf(s, id));
  }
}
