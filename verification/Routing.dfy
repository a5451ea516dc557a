/** Where each request ends up, and why whatever waits came there: stated on the
    request, the contacts and the configuration alone. */
module Routing {
  import opened Options
  import opened Json
  import opened Authentication
  import opened Contacts
  import opened Pending
  import opened Registry
  import opened Receiver
  import opened Protocol
  import opened Invariant

  // --------------------------------------------------------- the request's case

  predicate Unknown(cs: seq<Contact>, url: Str) {
    forall i :: 0 <= i < |cs| ==> cs[i].url != url
  }

  /** The oldest contact of this URL has this tier. */
  ghost predicate OldestTier(cs: seq<Contact>, url: Str, tier: Str) {
    exists i :: 0 <= i < |cs| && cs[i].url == url && cs[i].tier == tier && forall j :: 0 <= j < i ==> cs[j].url != url
  }

  lemma FindMeans(cs: seq<Contact>, url: Str, tier: Str)
    ensures IsKnown(cs, url) <==> !Unknown(cs, url)
    ensures EffectiveTier(cs, url) == Some(tier) <==> OldestTier(cs, url, tier)
  {
    var k := Find(cs, url);
    if OldestTier(cs, url, tier) {
      var i :| 0 <= i < |cs| && cs[i].url == url && cs[i].tier == tier && forall j :: 0 <= j < i ==> cs[j].url != url;
      assert i == k;
    }
  }

  function VerdictOn(cfg: Config, s: State, e: Event): Verdict
    requires e.Receive?
  {
    Decide(cfg.auth, cfg.crypto, s.seen, e.request, e.clock)
  }

  function BodyOf(cfg: Config, e: Event): Body
    requires e.Receive?
  {
    cfg.decode(e.request.body)
  }

  /** Whose request it is: an authenticated peer's own URL, else the claimed one. */
  function SenderOf(cfg: Config, s: State, e: Event): Str
    requires e.Receive? && BodyOf(cfg, e).Body?
  {
    if VerdictOn(cfg, s, e).Accepted? then VerdictOn(cfg, s, e).peer.senderUrl else BodyOf(cfg, e).claimedUrl
  }

  /** A missing signature where one is required. */
  predicate Unsigned(cfg: Config, s: State, e: Event)
    requires e.Receive?
  {
    VerdictOn(cfg, s, e).Anonymous? && cfg.auth.required
  }

  /** The request is answered with an error and becomes no task: it fails
      authentication or its shape is wrong; it claims another sender than its key's;
      it names no sender although there are contacts; or it is unsigned, and there
      are no contacts to ask the user about. */
  predicate IsRefused(cfg: Config, s: State, e: Event)
    requires e.Receive?
  {
    var v, body := VerdictOn(cfg, s, e), BodyOf(cfg, e);
    || v.Refused? || v.Raised? || body.Malformed?
    || (v.Accepted? && body.claimedUrl != [] && body.claimedUrl != v.peer.senderUrl)
    || (s.st.contacts.Some? && SenderOf(cfg, s, e) == [])
    || (s.st.contacts.None? && Unsigned(cfg, s, e))
  }

  /** The request is taken. */
  predicate IsTaken(cfg: Config, s: State, e: Event) { e.Receive? && !IsRefused(cfg, s, e) }

  /** First contact: the sender is unknown, or has not signed although it must. */
  predicate WantsApproval(cfg: Config, s: State, e: Event)
    requires IsTaken(cfg, s, e)
  {
    s.st.contacts.Some? && (Unknown(s.st.contacts.value, SenderOf(cfg, s, e)) || Unsigned(cfg, s, e))
  }

  ghost predicate WantsUser(cfg: Config, s: State, e: Event)
    requires IsTaken(cfg, s, e)
  {
    if s.st.contacts.Some? then
      !Unsigned(cfg, s, e) && OldestTier(s.st.contacts.value, SenderOf(cfg, s, e), Lit("known"))
    else cfg.auth.required
  }

  ghost predicate WantsChild(cfg: Config, s: State, e: Event, tier: Str)
    requires IsTaken(cfg, s, e)
  {
    if s.st.contacts.Some? then
      !Unsigned(cfg, s, e) && tier != Lit("known") && OldestTier(s.st.contacts.value, SenderOf(cfg, s, e), tier)
    else !cfg.auth.required && tier == Lit("trusted")
  }

  // ------------------------------------------------------------- the step's effect

  /** A refused request leaves nothing behind but the nonces. */
  lemma RefusedLeavesNothing(cfg: Config, s: State, e: Event)
    requires e.Receive? && Enabled(s, e) && IsRefused(cfg, s, e)
    ensures Step(cfg, s, e) == s.(seen := CacheAfter(cfg.auth, cfg.crypto, s.seen, e.request, e.clock))
  {
  }

  /** The parts of the state that no request changes beside its own task. */
  predicate SameElse(s: State, s': State, id: TaskId) {
    && s'.st.contacts == s.st.contacts && s'.st.deferred == s.st.deferred && s'.injected == s.injected
    && s'.issued == s.issued + {id} && s'.st.queue.Some? == s.st.queue.Some?
  }

  function NewTask(status: TaskStatus, message: Value): Task { Task(status, message, [], None, None) }

  lemma NotQueued(s: State, id: TaskId)
    requires Inv(s) && id !in s.issued
    ensures id !in QueuedIds(s)
  {
    QueuedMember(s, id);
    assert ViewOk(s.st.queue.Some?, ViewOf(s, id));
  }

  /** Routing, by the request's case. */
  lemma RouteByCase(cfg: Config, s: State, e: Event, tier: Str)
    requires IsTaken(cfg, s, e)
    ensures var route, url := RouteFor(cfg, s, e.request, e.clock), SenderOf(cfg, s, e);
            && (WantsApproval(cfg, s, e) ==> route == Some(ToApproval(url)))
            && (WantsUser(cfg, s, e) ==> route == Some(ToUser(url)))
            && (WantsChild(cfg, s, e, tier) ==> route == Some(ToChild(url, tier)))
  {
    if s.st.contacts.Some? {
      FindMeans(s.st.contacts.value, SenderOf(cfg, s, e), tier);
      FindMeans(s.st.contacts.value, SenderOf(cfg, s, e), Lit("known"));
    }
  }

  /** The state after a request that takes this route. */
  lemma RouteEffect(cfg: Config, s: State, e: Event, route: Route)
    requires Enabled(s, e) && e.Receive? && RouteFor(cfg, s, e.request, e.clock) == Some(route)
    requires !route.Refuse? && BodyOf(cfg, e).Body?
    ensures var s', body := Step(cfg, s, e), BodyOf(cfg, e);
            && SameElse(s, s', e.id)
            && s'.st.queue ==
                 Push(s.st.queue, MessageFor(route, body, e.id, e.now), ApprovalFor(route, body, e.id, e.now))
            && s'.st.tasks ==
                 s.st.tasks[e.id := NewTask(if route.ToChild? then Working else InputRequired, body.message)]
            && s'.flights == if route.ToChild? then s.flights[e.id := FlightOf(route, body)] else s.flights
  {
    StartParts(s.st, route, BodyOf(cfg, e), e.id, e.now);
  }

  /** An unknown sender, or an unsigned request where signing is required: a waiting
      task with exactly one entry, a pending approval with the sender's URL, name and
      message. */
  lemma FirstContactWaits(cfg: Config, s: State, e: Event)
    requires Inv(s) && Enabled(s, e) && IsTaken(cfg, s, e) && WantsApproval(cfg, s, e)
    ensures var s', body := Step(cfg, s, e), BodyOf(cfg, e);
            && SameElse(s, s', e.id) && s'.flights == s.flights && e.id !in QueuedIds(s)
            && s'.st.tasks == s.st.tasks[e.id := NewTask(InputRequired, body.message)]
            && Messages(s') == Messages(s)
            && (s.st.queue.Some? ==>
                  Approvals(s') == Approvals(s)
                    + [Entry(e.id, SenderOf(cfg, s, e), body.senderName, body.message, e.now, Pending, None)])
  {
    NotQueued(s, e.id);
    RouteByCase(cfg, s, e, []);
    RouteEffect(cfg, s, e, ToApproval(SenderOf(cfg, s, e)));
  }

  /** A known contact, or a signed request without a contact store: a waiting task
      with exactly one entry, a pending message that is not escalated. */
  lemma KnownSenderWaits(cfg: Config, s: State, e: Event)
    requires Inv(s) && Enabled(s, e) && IsTaken(cfg, s, e) && WantsUser(cfg, s, e)
    ensures var s', body := Step(cfg, s, e), BodyOf(cfg, e);
            && SameElse(s, s', e.id) && s'.flights == s.flights && e.id !in QueuedIds(s)
            && s'.st.tasks == s.st.tasks[e.id := NewTask(InputRequired, body.message)]
            && Approvals(s') == Approvals(s)
            && (s.st.queue.Some? ==>
                  Messages(s') == Messages(s)
                    + [Entry(e.id, SenderOf(cfg, s, e), body.senderName, body.message, e.now, Pending, Some(false))])
  {
    NotQueued(s, e.id);
    RouteByCase(cfg, s, e, []);
    RouteEffect(cfg, s, e, ToUser(SenderOf(cfg, s, e)));
  }

  /** Any other tier: a task at work, suspended with the sender, message and tier. */
  lemma TrustedSenderWorks(cfg: Config, s: State, e: Event, tier: Str)
    requires Inv(s) && Enabled(s, e) && IsTaken(cfg, s, e) && WantsChild(cfg, s, e, tier)
    ensures var s', body := Step(cfg, s, e), BodyOf(cfg, e);
            && SameElse(s, s', e.id) && s'.st.queue == s.st.queue && e.id !in QueuedIds(s)
            && s'.st.tasks == s.st.tasks[e.id := NewTask(Working, body.message)]
            && s'.flights == s.flights[e.id := Flight(SenderOf(cfg, s, e), body.senderName, body.message, tier)]
  {
    NotQueued(s, e.id);
    RouteByCase(cfg, s, e, tier);
    RouteEffect(cfg, s, e, ToChild(SenderOf(cfg, s, e), tier));
  }

  /** A request that is taken has exactly one of the three ends. */
  lemma ExactlyOneEnd(cfg: Config, s: State, e: Event) returns (tier: Str)
    requires IsTaken(cfg, s, e)
    ensures WantsApproval(cfg, s, e) <==> !WantsUser(cfg, s, e) && !WantsChild(cfg, s, e, tier)
    ensures !(WantsUser(cfg, s, e) && WantsChild(cfg, s, e, tier))
    ensures forall t :: t != tier ==> !WantsChild(cfg, s, e, t)
  {
    tier := Lit("trusted");
    if s.st.contacts.Some? {
      var cs, url := s.st.contacts.value, SenderOf(cfg, s, e);
      var found := EffectiveTier(cs, url);
      tier := if found.Some? then found.value else [];
      FindMeans(cs, url, tier);
      FindMeans(cs, url, Lit("known"));
      forall t | t != tier ensures !WantsChild(cfg, s, e, t) {
        FindMeans(cs, url, t);
      }
    }
  }

  // -------------------------------------------------------------------- the finish

  /** The answer goes to the asker: the contact is not of the trusted tier, nothing
      judges answers, or this one was judged sufficient. */
  predicate AnswerStands(cfg: Config, f: Flight, outcome: ChildOutcome)
    requires outcome.Answered?
  {
    f.tier != Lit("trusted") || !cfg.evaluates || outcome.sufficient
  }

  /** The end of a Mode C request: failed with the error's text, completed with the
      answer, or waiting for the user with one pending entry marked escalated. */
  lemma FinishEffect(cfg: Config, s: State, e: Event)
    requires Inv(s) && Enabled(s, e) && e.Finish?
    ensures var s', f, o := Step(cfg, s, e), s.flights[e.id], e.outcome;
            && e.id in s.st.tasks && e.id !in QueuedIds(s)
            && SameElse(s, s', e.id) && s'.flights == s.flights - {e.id} && Approvals(s') == Approvals(s)
            && s'.st.tasks == s.st.tasks[e.id := s'.st.tasks[e.id]]
            && var t, t' := s.st.tasks[e.id], s'.st.tasks[e.id];
               match o
               case Crashed(error) =>
                 && t' == t.(status := Failed, error := Some(Lit("Child session failed: ") + error))
                 && Messages(s') == Messages(s)
               case NotRun(error) => t' == t.(status := Failed, error := Some(error)) && Messages(s') == Messages(s)
               case Answered(text, _) =>
                 if AnswerStands(cfg, f, o) then
                   && t' == t.(status := Completed, artifacts := [text], attribution := Some(Autonomous))
                   && Messages(s') == Messages(s)
                 else
                   && t' == t.(status := InputRequired)
                   && (s.st.queue.Some? ==>
                         Messages(s') == Messages(s)
                           + [Entry(e.id, f.senderUrl, f.senderName, f.message, e.now, Pending, Some(true))])
  {
    assert ViewOk(s.st.queue.Some?, ViewOf(s, e.id));
    FlightPristine(s, e.id);
    QueuedMember(s, e.id);
  }

  lemma FlightPristine(s: State, id: TaskId)
    requires Inv(s) && id in s.flights
    ensures id in s.st.tasks && id in s.issued && s.st.tasks[id].status == Working
    ensures s.st.queue.Some? ==> Pristine(s.st.tasks[id])
  {
    assert ViewOk(s.st.queue.Some?, ViewOf(s, id));
  }
}
