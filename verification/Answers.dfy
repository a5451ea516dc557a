/** Where an answer comes from: the text of a completed task, and so of what a
    sender receives, was given by one particular step of its receiver. */
module Answers {
  import opened Options
  import opened Json
  import opened Pending
  import opened Registry
  import opened Receiver
  import opened Invariant
  import opened Operations
  import Protocol
  import Routing
  import Responses
  import Sender
  import World
  import Delivery

  /** What a sender is told: the texts, and who is said to have given them. */
  datatype Answer = Answer(artifacts: seq<Str>, attribution: Option<Attribution>)

  function AnswerOf(t: Task): Answer { Answer(t.artifacts, t.attribution) }

  /** The message entry of this task is one of an escalated request. */
  ghost predicate IsEscalated(s: Protocol.State, id: TaskId) {
    exists i :: 0 <= i < |Protocol.Messages(s)| && Protocol.Messages(s)[i].taskId == id
                && Protocol.Messages(s)[i].escalated == Some(true)
  }

  /** The oldest pending contact request of this agent is the one of this task. */
  ghost predicate IsDecided(s: Protocol.State, agent: Str, id: TaskId, name: Str) {
    exists i: nat :: IsOldestAsking(Protocol.Approvals(s), agent, i) && Protocol.Approvals(s)[i].taskId == id
                     && Protocol.Approvals(s)[i].senderName == name
  }

  /** The step, taken in state `s`, succeeds in giving the task this answer: the
      user responds to it; its child session answers, and the answer stands; or its
      contact request, the oldest pending one of its sender, is approved. */
  ghost predicate AnsweredBy(cfg: Protocol.Config, s: Protocol.State, e: Protocol.Event, id: TaskId, answer: Answer) {
    id in s.st.tasks &&
    match e
    case Respond(k, text) =>
      && k == id && Applies(s, e)
      && answer == Answer([text], Some(if IsEscalated(s, id) then EscalatedUserResponse else UserResponse))
    case Finish(k, outcome, _) =>
      && k == id && id in s.flights && outcome.Answered? && Routing.AnswerStands(cfg, s.flights[id], outcome)
      && answer == Answer([outcome.text], Some(Autonomous))
    case Approve(agent, _, _) =>
      && Applies(s, e)
      && exists name :: IsDecided(s, agent, id, name)
           && answer == Answer([Lit("Contact ") + name + Lit(" approved. The sender can now send messages.")], None)
    case _ => false
  }

  /** With one entry per task, a lookup tells whether it was escalated. */
  lemma EscalatedByLookup(s: Protocol.State, id: TaskId)
    requires Inv(s) && Lookup(Protocol.Messages(s), id).Some?
    ensures IsEscalated(s, id) <==> Lookup(Protocol.Messages(s), id).value.escalated == Some(true)
  {
    var es := Protocol.Messages(s);
    UniqueParts(s);
    if IsEscalated(s, id) {
      var i :| 0 <= i < |es| && es[i].taskId == id && es[i].escalated == Some(true);
      OnlyPosition(es, i);
    } else {
      assert es[IndexOf(es, id)].taskId == id;
    }
  }

  /** The contact request that approve acts on. */
  lemma DecidedByLookup(s: Protocol.State, agent: Str, id: TaskId, name: Str)
    requires Inv(s) && s.st.queue.Some?
    ensures IsDecided(s, agent, id, name) <==>
            && PendingApproval(s.st.queue.value, agent).Some?
            && PendingApproval(s.st.queue.value, agent).value.taskId == id
            && PendingApproval(s.st.queue.value, agent).value.senderName == name
  {
    var es := Protocol.Approvals(s);
    OldestAskingFound(es, agent);
    if Asks(es, agent) {
      var i := FirstAsking(es, agent);
      AskingPosition(s, agent, i);
    }
  }

  lemma ApprovalTakesEffect(cfg: Protocol.Config, s: Protocol.State, e: Protocol.Event, id: TaskId, answer: Answer)
    requires Inv(s) && e.Approve? && AnsweredBy(cfg, s, e, id, answer)
    ensures var s' := Protocol.Step(cfg, s, e);
            id in s'.st.tasks && s'.st.tasks[id].status == Completed && AnswerOf(s'.st.tasks[id]) == answer
  {
    var name :| IsDecided(s, e.agent, id, name)
      && answer == Answer([Lit("Contact ") + name + Lit(" approved. The sender can now send messages.")], None);
    assert ViewOk(s.st.queue.Some?, ViewOf(s, id));
    ResultExactly(cfg, s, e);
    DecidedByLookup(s, e.agent, id, name);
    PendingApprovalFound(s, e.agent);
  }

  /** What such a step leaves: the task completed, with just this answer. */
  lemma AnswerTakesEffect(cfg: Protocol.Config, s: Protocol.State, e: Protocol.Event, id: TaskId, answer: Answer)
    requires Inv(s) && Protocol.Enabled(s, e) && AnsweredBy(cfg, s, e, id, answer)
    ensures var s' := Protocol.Step(cfg, s, e);
            id in s'.st.tasks && s'.st.tasks[id].status == Completed && AnswerOf(s'.st.tasks[id]) == answer
  {
    if e.Approve? {
      ApprovalTakesEffect(cfg, s, e, id, answer);
    } else if e.Respond? {
      ResultExactly(cfg, s, e);
      EscalatedByLookup(s, id);
    }
  }

  /** How the answer and completion of a task can differ after one step. */
  ghost predicate AnswerStep(cfg: Protocol.Config, s: Protocol.State, e: Protocol.Event, s': Protocol.State, id: TaskId)
  {
    id in s'.st.tasks ==>
      var t' := s'.st.tasks[id];
      || AnsweredBy(cfg, s, e, id, AnswerOf(t'))
      || (t'.artifacts == [] && t'.status != Completed)
      || (id in s.st.tasks && t'.artifacts == s.st.tasks[id].artifacts
          && (t'.status == Completed ==> t' == s.st.tasks[id]))
  }

  lemma StartAnswers(st: Stores, route: Route, body: Body, k: TaskId, now: Str, id: TaskId)
    requires !route.Refuse? && body.Body? && id in AfterStart(st, route, body, k, now).tasks
    ensures var t' := AfterStart(st, route, body, k, now).tasks[id];
            || (t'.artifacts == [] && t'.status != Completed)
            || (id in st.tasks && t' == st.tasks[id])
  {
  }

  lemma ReceiveAnswers(cfg: Protocol.Config, s: Protocol.State, e: Protocol.Event, id: TaskId)
    requires e.Receive?
    ensures AnswerStep(cfg, s, e, Protocol.AfterReceive(cfg, s, e.request, e.clock, e.id, e.now), id)
  {
    var s' := Protocol.AfterReceive(cfg, s, e.request, e.clock, e.id, e.now);
    var route := Protocol.RouteFor(cfg, s, e.request, e.clock);
    if route.Some? && !route.value.Refuse? && id in s'.st.tasks {
      StartAnswers(s.st, route.value, cfg.decode(e.request.body), e.id, e.now, id);
    }
  }

  lemma FinishAnswers(cfg: Protocol.Config, s: Protocol.State, e: Protocol.Event, id: TaskId)
    requires Inv(s) && Protocol.Enabled(s, e) && e.Finish?
    ensures AnswerStep(cfg, s, e, Protocol.Step(cfg, s, e), id)
  {
  }

  lemma ApprovedIsAnswer(cfg: Protocol.Config, s: Protocol.State, e: Protocol.Event)
    requires Inv(s) && e.Approve? && ApproveResult(s.st, e.agent) == Success
    requires PendingApproval(s.st.queue.value, e.agent).value.taskId in s.st.tasks
    ensures var a := PendingApproval(s.st.queue.value, e.agent).value;
            AnsweredBy(cfg, s, e, a.taskId, Answer([ApprovedText(a.senderName)], None))
  {
    var a := PendingApproval(s.st.queue.value, e.agent).value;
    ResultExactly(cfg, s, e);
    DecidedByLookup(s, e.agent, a.taskId, a.senderName);
  }

  lemma ApproveAnswers(cfg: Protocol.Config, s: Protocol.State, e: Protocol.Event, id: TaskId)
    requires Inv(s) && e.Approve?
    ensures AnswerStep(cfg, s, e, Protocol.Step(cfg, s, e), id)
  {
    if ApproveResult(s.st, e.agent) == Success && id in s.st.tasks {
      var a := PendingApproval(s.st.queue.value, e.agent).value;
      if a.taskId == id {
        PendingApprovalFound(s, e.agent);
        assert ViewOk(s.st.queue.Some?, ViewOf(s, id));
        ApprovedIsAnswer(cfg, s, e);
      }
    }
  }

  lemma RespondAnswers(cfg: Protocol.Config, s: Protocol.State, e: Protocol.Event, id: TaskId)
    requires Inv(s) && e.Respond?
    ensures AnswerStep(cfg, s, e, Protocol.Step(cfg, s, e), id)
  {
    ResultExactly(cfg, s, e);
    if MessageResult(s.st, e.id, e.text != []) == Success {
      EscalatedByLookup(s, e.id);
    }
  }

  lemma BlockAnswers(cfg: Protocol.Config, s: Protocol.State, e: Protocol.Event, id: TaskId)
    requires e.Block?
    ensures AnswerStep(cfg, s, e, Protocol.Step(cfg, s, e), id)
  {
  }

  lemma StepAnswers(cfg: Protocol.Config, s: Protocol.State, e: Protocol.Event, id: TaskId)
    requires Inv(s) && Protocol.Enabled(s, e)
    ensures AnswerStep(cfg, s, e, Protocol.Step(cfg, s, e), id)
  {
    if e.Receive? {
      ReceiveAnswers(cfg, s, e, id);
    } else if e.Finish? {
      FinishAnswers(cfg, s, e, id);
    } else if e.Approve? {
      ApproveAnswers(cfg, s, e, id);
    } else if e.Respond? {
      RespondAnswers(cfg, s, e, id);
    } else if e.Block? {
      BlockAnswers(cfg, s, e, id);
    }
  }

  /** Step `k` of the receiver at `url` gave the task this answer. */
  ghost predicate AnswersAt(cfgs: Str -> Protocol.Config, tr: seq<World.World>, evs: seq<World.Event>, k: nat,
                            url: Str, id: TaskId, answer: Answer)
    requires k < |evs| < |tr|
  {
    && evs[k].Remote? && evs[k].url == url && url in tr[k].remotes
    && AnsweredBy(cfgs(url), tr[k].remotes[url], evs[k].e, id, answer)
  }

  /** An earlier step of the receiver at `url` gave the task this answer. */
  ghost predicate HasAnswer(cfgs: Str -> Protocol.Config, tr: seq<World.World>, evs: seq<World.Event>, n: nat,
                            url: Str, id: TaskId, answer: Answer)
    requires n <= |evs| < |tr|
  {
    exists k :: 0 <= k < n && AnswersAt(cfgs, tr, evs, k, url, id, answer)
  }

  /** These texts were given by such a step, whatever the task has become since. */
  ghost predicate HasTexts(cfgs: Str -> Protocol.Config, tr: seq<World.World>, evs: seq<World.Event>, n: nat,
                           url: Str, id: TaskId, artifacts: seq<Str>)
    requires n <= |evs| < |tr|
  {
    exists who :: HasAnswer(cfgs, tr, evs, n, url, id, Answer(artifacts, who))
  }

  lemma AnswerStays(cfgs: Str -> Protocol.Config, tr: seq<World.World>, evs: seq<World.Event>, m: nat, n: nat,
                    url: Str, id: TaskId, answer: Answer)
    requires m <= n <= |evs| < |tr| && HasAnswer(cfgs, tr, evs, m, url, id, answer)
    ensures HasAnswer(cfgs, tr, evs, n, url, id, answer)
  {
  }

  lemma TextsStay(cfgs: Str -> Protocol.Config, tr: seq<World.World>, evs: seq<World.Event>, m: nat, n: nat,
                  url: Str, id: TaskId, artifacts: seq<Str>)
    requires m <= n <= |evs| < |tr| && HasTexts(cfgs, tr, evs, m, url, id, artifacts)
    ensures HasTexts(cfgs, tr, evs, n, url, id, artifacts)
  {
    var who :| HasAnswer(cfgs, tr, evs, m, url, id, Answer(artifacts, who));
    AnswerStays(cfgs, tr, evs, m, n, url, id, Answer(artifacts, who));
  }

  /** A completed task has its answer, and any task its artifacts, from an earlier
      step of its receiver. */
  ghost predicate Accounted(cfgs: Str -> Protocol.Config, tr: seq<World.World>, evs: seq<World.Event>, n: nat,
                            url: Str, id: TaskId, t: Task)
    requires n <= |evs| < |tr|
  {
    && (t.status == Completed ==> HasAnswer(cfgs, tr, evs, n, url, id, AnswerOf(t)))
    && (t.artifacts != [] ==> HasTexts(cfgs, tr, evs, n, url, id, t.artifacts))
  }

  lemma AccountedStays(cfgs: Str -> Protocol.Config, tr: seq<World.World>, evs: seq<World.Event>, m: nat, n: nat,
                       url: Str, id: TaskId, t: Task)
    requires m <= n <= |evs| < |tr| && Accounted(cfgs, tr, evs, m, url, id, t)
    ensures Accounted(cfgs, tr, evs, n, url, id, t)
  {
    if t.status == Completed {
      AnswerStays(cfgs, tr, evs, m, n, url, id, AnswerOf(t));
    }
    if t.artifacts != [] {
      TextsStay(cfgs, tr, evs, m, n, url, id, t.artifacts);
    }
  }

  lemma AccountedNow(cfgs: Str -> Protocol.Config, tr: seq<World.World>, evs: seq<World.Event>, k: nat,
                     url: Str, id: TaskId, t: Task)
    requires k < |evs| < |tr| && AnswersAt(cfgs, tr, evs, k, url, id, AnswerOf(t))
    ensures Accounted(cfgs, tr, evs, k + 1, url, id, t)
  {
    assert HasAnswer(cfgs, tr, evs, k + 1, url, id, AnswerOf(t));
    assert HasAnswer(cfgs, tr, evs, k + 1, url, id, Answer(t.artifacts, t.attribution));
  }

  /** What the receiver at `url` holds under `id` is accounted for. */
  ghost predicate Sourced(cfgs: Str -> Protocol.Config, tr: seq<World.World>, evs: seq<World.Event>, n: nat,
                          url: Str, id: TaskId)
    requires n <= |evs| < |tr|
  {
    url in tr[n].remotes && id in tr[n].remotes[url].st.tasks ==>
      Accounted(cfgs, tr, evs, n, url, id, tr[n].remotes[url].st.tasks[id])
  }

  /** The same texts as a task accounted for, and the same task if completed. */
  lemma AccountedCarries(cfgs: Str -> Protocol.Config, tr: seq<World.World>, evs: seq<World.Event>, n: nat,
                         url: Str, id: TaskId, t: Task, t': Task)
    requires n < |evs| < |tr| && Accounted(cfgs, tr, evs, n, url, id, t)
    requires t'.artifacts == t.artifacts && (t'.status == Completed ==> t' == t)
    ensures Accounted(cfgs, tr, evs, n + 1, url, id, t')
  {
    AccountedStays(cfgs, tr, evs, n, n + 1, url, id, t);
  }

  lemma SourcedByStep(cfgs: Str -> Protocol.Config, tr: seq<World.World>, evs: seq<World.Event>, n: nat,
                      url: Str, id: TaskId)
    requires n < |evs| < |tr| && Sourced(cfgs, tr, evs, n, url, id)
    requires evs[n].Remote? && evs[n].url == url && url in tr[n].remotes && url in tr[n + 1].remotes
    requires AnswerStep(cfgs(url), tr[n].remotes[url], evs[n].e, tr[n + 1].remotes[url], id)
    ensures Sourced(cfgs, tr, evs, n + 1, url, id)
  {
    if id in tr[n + 1].remotes[url].st.tasks {
      var t' := tr[n + 1].remotes[url].st.tasks[id];
      if AnsweredBy(cfgs(url), tr[n].remotes[url], evs[n].e, id, AnswerOf(t')) {
        AccountedNow(cfgs, tr, evs, n, url, id, t');
      } else if t'.artifacts != [] || t'.status == Completed {
        AccountedCarries(cfgs, tr, evs, n, url, id, tr[n].remotes[url].st.tasks[id], t');
      }
    }
  }

  lemma SourcedStays(cfgs: Str -> Protocol.Config, tr: seq<World.World>, evs: seq<World.Event>, n: nat,
                     url: Str, id: TaskId)
    requires n < |evs| < |tr| && Sourced(cfgs, tr, evs, n, url, id)
    requires url in tr[n + 1].remotes ==> url in tr[n].remotes && tr[n].remotes[url] == tr[n + 1].remotes[url]
    ensures Sourced(cfgs, tr, evs, n + 1, url, id)
  {
    if url in tr[n + 1].remotes && id in tr[n].remotes[url].st.tasks {
      AccountedStays(cfgs, tr, evs, n, n + 1, url, id, tr[n].remotes[url].st.tasks[id]);
    }
  }

  lemma RemotesAfter(cfgs: Str -> Protocol.Config, w: World.World, e: World.Event, w': World.World, url: Str)
    requires World.Enabled(w, e) && w' == World.Step(cfgs, w, e)
    ensures url in w'.remotes <==> url in w.remotes
    ensures url in w.remotes && e.Remote? && e.url == url ==>
              Protocol.Enabled(w.remotes[url], e.e)
              && w'.remotes[url] == Protocol.Step(cfgs(url), w.remotes[url], e.e)
    ensures url in w.remotes && !(e.Remote? && e.url == url) ==> w'.remotes[url] == w.remotes[url]
  {
  }

  lemma SourcedStep(cfgs: Str -> Protocol.Config, tr: seq<World.World>, evs: seq<World.Event>, n: nat,
                    url: Str, id: TaskId)
    requires n < |evs| < |tr| && Sourced(cfgs, tr, evs, n, url, id) && World.Inv(tr[n])
    requires World.Enabled(tr[n], evs[n]) && tr[n + 1] == World.Step(cfgs, tr[n], evs[n])
    ensures Sourced(cfgs, tr, evs, n + 1, url, id)
  {
    var e := evs[n];
    RemotesAfter(cfgs, tr[n], e, tr[n + 1], url);
    if e.Remote? && e.url == url {
      StepAnswers(cfgs(url), tr[n].remotes[url], e.e, id);
      SourcedByStep(cfgs, tr, evs, n, url, id);
    } else {
      SourcedStays(cfgs, tr, evs, n, url, id);
    }
  }

  /** Every completed task, and every artifact, of every run was given by a step
      of its own receiver. */
  lemma {:induction false} AnswersHaveSource(cfgs: Str -> Protocol.Config, tr: seq<World.World>, evs: seq<World.Event>,
                                             n: nat, url: Str, id: TaskId)
    requires World.Run(cfgs, tr, evs) && n < |tr|
    ensures Sourced(cfgs, tr, evs, n, url, id)
    decreases n
  {
    if n > 0 {
      AnswersHaveSource(cfgs, tr, evs, n - 1, url, id);
      World.RunInv(cfgs, tr, evs, n - 1);
      assert World.Enabled(tr[n - 1], evs[n - 1]);
      SourcedStep(cfgs, tr, evs, n - 1, url, id);
    }
  }

  /** End to end: what the sender's session gets for a COMPLETED task is, text and
      attribution, the answer that one step of its receiver gave: a response of the
      user, marked as escalated or not, an answer of the child session, marked as
      autonomous, or the approval of its contact request, without a mark. Texts of
      other tasks, as of a REJECTED one that was answered before, are such a step's
      as well. */
  lemma DeliveredTextHasSource(cfgs: Str -> Protocol.Config, tr: seq<World.World>, evs: seq<World.Event>, n: nat,
                               d: Sender.Done)
    requires World.Run(cfgs, tr, evs) && n < |tr| && d in tr[n].snd.delivered
    ensures Accounted(cfgs, tr, evs, n, d.info.agentUrl, d.info.taskId, d.result)
  {
    Delivery.DeliveredIsGenuine(cfgs, tr, evs, n, d);
    var url, id := d.info.agentUrl, d.info.taskId;
    var m :| 0 <= m <= n && Delivery.TakenAt(tr, evs, m, n, url, id, d.result);
    AnswersHaveSource(cfgs, tr, evs, m, url, id);
    AccountedStays(cfgs, tr, evs, m, n, url, id, d.result);
  }

  /** The record's label names the kind of the step: a child session's answer, a
      user's response to a request that was not escalated or to one that was, or the
      approval of a contact request. */
  ghost predicate LabelNames(r: Value, s: Protocol.State, e: Protocol.Event) {
    && (Responses.IsLabelled(r, "Answered autonomously by agent") <==> e.Finish?)
    && (Responses.IsLabelled(r, "Answered by the user directly") <==> e.Respond? && !IsEscalated(s, e.id))
    && (Responses.IsLabelled(r, "Agent couldn't answer; user responded") <==> e.Respond? && IsEscalated(s, e.id))
    && (Responses.IsLabelled(r, "Attribution: unknown") <==> e.Approve?)
  }

  lemma LabelNamesStep(cfg: Protocol.Config, s: Protocol.State, e: Protocol.Event, id: TaskId, answer: Answer, r: Value)
    requires AnsweredBy(cfg, s, e, id, answer) && Responses.ShowsLabel(r, answer.attribution)
    ensures LabelNames(r, s, e)
  {
    Responses.LabelTells(r, answer.attribution);
  }

  /** Step `k` gave the task the answer that the record shows, and its label says how. */
  ghost predicate TellsItsSource(cfgs: Str -> Protocol.Config, tr: seq<World.World>, evs: seq<World.Event>, k: nat,
                                 d: Sender.Done, r: Value)
    requires k < |evs| < |tr|
  {
    && AnswersAt(cfgs, tr, evs, k, d.info.agentUrl, d.info.taskId, AnswerOf(d.result))
    && LabelNames(r, tr[k].remotes[d.info.agentUrl], evs[k].e)
  }

  lemma ShownTellsSource(cfgs: Str -> Protocol.Config, tr: seq<World.World>, evs: seq<World.Event>, n: nat,
                         d: Sender.Done, r: Value)
    requires World.Run(cfgs, tr, evs) && n < |tr| && d in tr[n].snd.delivered && Responses.ShowsResponse(r, d)
    requires Get(r, "status") == Some(Text(Lit("COMPLETED")))
    ensures exists k :: 0 <= k < n && TellsItsSource(cfgs, tr, evs, k, d, r)
  {
    Responses.StatusTells(r, d.result.status);
    DeliveredTextHasSource(cfgs, tr, evs, n, d);
    var url, id := d.info.agentUrl, d.info.taskId;
    var k :| 0 <= k < n && AnswersAt(cfgs, tr, evs, k, url, id, AnswerOf(d.result));
    LabelNamesStep(cfgs(url), tr[k].remotes[url], evs[k].e, id, AnswerOf(d.result), r);
    assert TellsItsSource(cfgs, tr, evs, k, d, r);
  }

  /** The record shows the response, and the label of a COMPLETED one says truly which
      kind of step of its receiver gave the answer. */
  ghost predicate ShownTruly(cfgs: Str -> Protocol.Config, tr: seq<World.World>, evs: seq<World.Event>, n: nat,
                             d: Sender.Done, r: Value)
    requires n <= |evs| < |tr|
  {
    && Responses.ShowsResponse(r, d)
    && (Get(r, "status") == Some(Text(Lit("COMPLETED"))) ==>
          exists k :: 0 <= k < n && TellsItsSource(cfgs, tr, evs, k, d, r))
  }

  lemma ShownIsTrue(cfgs: Str -> Protocol.Config, tr: seq<World.World>, evs: seq<World.Event>, n: nat,
                    d: Sender.Done, r: Value)
    requires World.Run(cfgs, tr, evs) && n < |tr| && d in tr[n].snd.delivered && Responses.ShowsResponse(r, d)
    ensures ShownTruly(cfgs, tr, evs, n, d, r)
  {
    if Get(r, "status") == Some(Text(Lit("COMPLETED"))) {
      ShownTellsSource(cfgs, tr, evs, n, d, r);
    }
  }

  /** End to end, on what the session reads: the text that a drain hands over has one
      record for each response, in order, and each is shown truly. */
  lemma SessionIsToldTheSource(cfgs: Str -> Protocol.Config, tr: seq<World.World>, evs: seq<World.Event>, n: nat)
    returns (rs: seq<Value>)
    requires World.Run(cfgs, tr, evs) && n < |evs| && evs[n].Deliver? && tr[n].snd.completed != []
    ensures Responses.ReadsAs(Responses.Injected(tr[n].snd.completed).value, rs)
    ensures |rs| == |tr[n].snd.completed|
    ensures forall i :: 0 <= i < |rs| ==> ShownTruly(cfgs, tr, evs, n + 1, tr[n].snd.completed[i], rs[i])
  {
    rs := Responses.DeliveryShows(tr[n].snd.completed);
    DrainIsTrue(cfgs, tr, evs, n, rs);
  }

  lemma DrainIsTrue(cfgs: Str -> Protocol.Config, tr: seq<World.World>, evs: seq<World.Event>, n: nat, rs: seq<Value>)
    requires World.Run(cfgs, tr, evs) && n < |evs| && evs[n].Deliver? && |rs| == |tr[n].snd.completed|
    requires forall i :: 0 <= i < |rs| ==> Responses.ShowsResponse(rs[i], tr[n].snd.completed[i])
    ensures forall i :: 0 <= i < |rs| ==> ShownTruly(cfgs, tr, evs, n + 1, tr[n].snd.completed[i], rs[i])
  {
    forall i | 0 <= i < |rs| ensures ShownTruly(cfgs, tr, evs, n + 1, tr[n].snd.completed[i], rs[i]) {
      DrainedIsDelivered(cfgs, tr, evs, n, i);
      ShownIsTrue(cfgs, tr, evs, n + 1, tr[n].snd.completed[i], rs[i]);
    }
  }

  lemma DrainedIsDelivered(cfgs: Str -> Protocol.Config, tr: seq<World.World>, evs: seq<World.Event>, n: nat, i: nat)
    requires World.Run(cfgs, tr, evs) && n < |evs| && evs[n].Deliver? && i < |tr[n].snd.completed|
    ensures tr[n].snd.completed[i] in tr[n + 1].snd.delivered
  {
    assert World.Enabled(tr[n], evs[n]);
    assert tr[n + 1].snd.delivered[|tr[n].snd.delivered| + i] == tr[n].snd.completed[i];
  }
}
