/** Sender and receivers together: every pending task is asked about, and what its
    receiver answers arrives. */
module Polling {
  import opened Options
  import opened Json
  import opened Pending
  import opened Registry
  import Protocol
  import Invariant
  import Sender
  import Rounds
  import opened World

  /** The sender's step in a step of the joint system, None when it has no part. */
  function SenderPart(w: World, e: Event): Option<Sender.Step> {
    match e
    case TakeReply(id, agent, now, blocking, _) =>
      if id in w.replies && !Rounds.IsFinal(w.replies[id].task.status) && !blocking
      then Some(Sender.Track(Sender.Info(id, w.replies[id].url, agent, now)))
      else None
    case GiveUp(id) => if id in w.waiting then Some(Sender.Track(w.waiting[id].info)) else None
    case BeginRound => Some(Sender.BeginRound)
    case Next => Some(Sender.Next)
    case Settle => if w.observed.Some? then Some(Sender.Reply(w.observed.value)) else None
    case Deliver => Some(Sender.Deliver)
    case _ => None
  }

  lemma StepProjects(cfgs: Str -> Protocol.Config, w: World, e: Event)
    requires Inv(w) && Enabled(w, e)
    ensures var o, s' := SenderPart(w, e), Step(cfgs, w, e).snd;
            if o.None? then s' == w.snd else Sender.Enabled(w.snd, o.value) && s' == Sender.After(w.snd, o.value)
  {
    if e.TakeReply? || e.GiveUp? {
      assert PhaseOk(w, e.id);
    }
  }

  /** The sender's states in a joint run. */
  function Senders(tr: seq<World>): seq<Sender.State> {
    seq(|tr|, k requires 0 <= k < |tr| => tr[k].snd)
  }

  function SenderParts(tr: seq<World>, evs: seq<Event>): seq<Option<Sender.Step>>
    requires |evs| <= |tr|
  {
    seq(|evs|, k requires 0 <= k < |evs| => SenderPart(tr[k], evs[k]))
  }

  lemma ProjectedStep(cfgs: Str -> Protocol.Config, tr: seq<World>, evs: seq<Event>, k: nat)
    requires Run(cfgs, tr, evs) && k < |evs|
    ensures var o := SenderPart(tr[k], evs[k]);
            if o.None? then tr[k + 1].snd == tr[k].snd
            else Sender.Enabled(tr[k].snd, o.value) && tr[k + 1].snd == Sender.After(tr[k].snd, o.value)
  {
    RunInv(cfgs, tr, evs, k);
    assert Enabled(tr[k], evs[k]);
    StepProjects(cfgs, tr[k], evs[k]);
  }

  lemma SenderInvAt(cfgs: Str -> Protocol.Config, tr: seq<World>, evs: seq<Event>, k: nat)
    requires Run(cfgs, tr, evs) && k < |tr|
    ensures Sender.Inv(tr[k].snd)
  {
    RunInv(cfgs, tr, evs, k);
  }

  lemma RunProjects(cfgs: Str -> Protocol.Config, tr: seq<World>, evs: seq<Event>, ss: seq<Sender.State>,
                    os: seq<Option<Sender.Step>>)
    requires Run(cfgs, tr, evs) && ss == Senders(tr) && os == SenderParts(tr, evs)
    ensures Rounds.History(ss, os)
  {
    forall k | 0 <= k < |os| ensures Rounds.StepAt(ss, os, k) {
      ProjectedStep(cfgs, tr, evs, k);
    }
    forall k | 0 <= k < |ss| ensures Sender.Inv(ss[k]) {
      SenderInvAt(cfgs, tr, evs, k);
    }
  }

  /** The sender's part of a joint run as a history of its own. */
  lemma JointHistory(cfgs: Str -> Protocol.Config, tr: seq<World>, evs: seq<Event>)
    returns (ss: seq<Sender.State>, os: seq<Option<Sender.Step>>)
    requires Run(cfgs, tr, evs)
    ensures |ss| == |tr| && |os| == |evs| && Rounds.History(ss, os)
    ensures forall k :: 0 <= k < |ss| ==> ss[k] == tr[k].snd
    ensures forall k :: 0 <= k < |os| ==> os[k] == SenderPart(tr[k], evs[k])
  {
    ss, os := Senders(tr), SenderParts(tr, evs);
    RunProjects(cfgs, tr, evs, ss, os);
  }

  /** In every joint run: each task pending when a round begins is asked about before
      the poller is idle again, unless an unexpected exception was the end of it. */
  lemma EveryPendingIsAsked(cfgs: Str -> Protocol.Config, tr: seq<World>, evs: seq<Event>, i: nat, n: nat, id: TaskId)
    requires Run(cfgs, tr, evs) && i < n < |evs| && evs[i] == BeginRound
    requires (forall k :: i < k <= n ==> !tr[k].snd.poller.Idle?) && tr[n + 1].snd.poller.Idle?
    requires id in Sender.InfoIds(tr[i].snd.pending)
    ensures || AskedBetween(tr, i, n, id)
            || (evs[n] == Settle && tr[n].observed == Some(Sender.Broken))
  {
    var ss, os := JointHistory(cfgs, tr, evs);
    Rounds.EveryPendingIsAsked(ss, os, i, n, id);
    if Rounds.AskedIn(ss, i, n, id) {
      var k :| i < k <= n && Rounds.Asks(ss[k], id);
      assert Rounds.Asks(tr[k].snd, id);
    }
  }

  ghost predicate AskedBetween(tr: seq<World>, lo: nat, hi: nat, id: TaskId)
    requires hi < |tr|
  {
    exists k :: lo < k <= hi && Rounds.Asks(tr[k].snd, id)
  }

  // ------------------------------------------------------------ answers arrive

  lemma ObservesAnswer(cfgs: Str -> Protocol.Config, w: World, task: Task)
    requires w.snd.poller.Waiting? && w.observed.None?
    requires var info := w.snd.poller.info;
             info.agentUrl in w.remotes && info.taskId in w.remotes[info.agentUrl].st.tasks
             && w.remotes[info.agentUrl].st.tasks[info.taskId] == task
    ensures Step(cfgs, w, Observe(NoFault)) == w.(observed := Some(Sender.Found(task)))
  {
  }

  /** A final task that the poller asks about, without a fault on the way, is with the
      session after the next drain, as the receiver holds it. */
  lemma FinalAnswerArrives(cfgs: Str -> Protocol.Config, w: World, task: Task)
    requires Inv(w) && w.snd.poller.Waiting? && w.observed.None? && Rounds.IsFinal(task.status)
    requires var info := w.snd.poller.info;
             info.agentUrl in w.remotes && info.taskId in w.remotes[info.agentUrl].st.tasks
             && w.remotes[info.agentUrl].st.tasks[info.taskId] == task
    ensures var w1 := Step(cfgs, w, Observe(NoFault));
            var w2 := Step(cfgs, w1, Settle);
            var w3 := Step(cfgs, w2, Deliver);
            w3.snd.delivered == w.snd.delivered + w.snd.completed + [Sender.Done(w.snd.poller.info, task)]
  {
    ObservesAnswer(cfgs, w, task);
    Rounds.ReplyEffect(w.snd, Sender.Found(task));
  }

  /** So for a blocking send: its poll hands the final task to the caller. */
  lemma FinalAnswerReturns(cfgs: Str -> Protocol.Config, w: World, id: TaskId, task: Task)
    requires Inv(w) && id in w.waiting && w.waiting[id].polls > 0 && w.waiting[id].observed.None?
    requires var url := w.waiting[id].info.agentUrl;
             url in w.remotes && id in w.remotes[url].st.tasks && w.remotes[url].st.tasks[id] == task
    requires Rounds.IsFinal(task.status)
    ensures var w1 := Step(cfgs, w, WaitObserve(id, NoFault));
            var w2 := Step(cfgs, w1, WaitSettle(id));
            id !in w2.waiting && id in w2.returned && w2.returned[id] == Reply(w.waiting[id].info.agentUrl, task)
  {
  }

  /** The message request of a task is replied to exactly when it has not gone to a
      child session, or when that session has answered: with the task as it is then. */
  lemma RepliesExactly(cfgs: Str -> Protocol.Config, w: World, url: Str, pe: Protocol.Event, id: TaskId)
    requires Inv(w) && Enabled(w, Remote(url, pe)) && id !in w.replies
    ensures var w' := Step(cfgs, w, Remote(url, pe));
            var tasks := w'.remotes[url].st.tasks;
            && (id in w'.replies <==>
                  id in tasks
                  && ((pe.Receive? && pe.id == id && tasks[id].status != Working)
                      || (pe.Finish? && pe.id == id && pe.outcome.Answered?)))
            && (id in w'.replies ==> w'.replies[id] == Reply(url, tasks[id]))
  {
    var w' := Step(cfgs, w, Remote(url, pe));
    RemoteKeeps(cfgs, w, url, pe);
    assert Invariant.ViewOk(w'.remotes[url].st.queue.Some?, Invariant.ViewOf(w'.remotes[url], id));
  }

  lemma TrackedHas(p: seq<Sender.Info>, info: Sender.Info)
    ensures info in Sender.Tracked(p, info)
  {
    var i := Sender.InfoIndex(p, info.taskId);
    assert Sender.Tracked(p, info)[i] == info;
  }

  /** A reply is taken up as the kind of send wants it. */
  lemma ReplyTakenUp(cfgs: Str -> Protocol.Config, w: World, id: TaskId, agent: Str, now: Str, blocking: bool,
                     timeout: real)
    requires Inv(w) && id in w.replies
    ensures var r, w' := w.replies[id], Step(cfgs, w, TakeReply(id, agent, now, blocking, timeout));
            && (Rounds.IsFinal(r.task.status) ==> id in w'.returned && w'.returned[id] == r)
            && (!Rounds.IsFinal(r.task.status) && blocking ==> id in w'.waiting)
            && (!Rounds.IsFinal(r.task.status) && !blocking ==>
                  Sender.Info(id, r.url, agent, now) in w'.snd.pending)
  {
    assert PhaseOk(w, id);
    if !Rounds.IsFinal(w.replies[id].task.status) && !blocking {
      TrackedHas(w.snd.pending, Sender.Info(id, w.replies[id].url, agent, now));
    }
  }
}
