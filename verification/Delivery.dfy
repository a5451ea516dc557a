/** End to end: what reaches the sender's session is what the receiver said. */
module Delivery {
  import opened Options
  import opened Json
  import opened Pending
  import opened Registry
  import Protocol
  import ReceiverSafety
  import Sender
  import opened World

  /** The receiver at `url` holds `task` under `id`. */
  ghost predicate Holds(w: World, url: Str, id: TaskId, task: Task) {
    url in w.remotes && id in w.remotes[url].st.tasks && w.remotes[url].st.tasks[id] == task
  }

  ghost predicate HeldBefore(tr: seq<World>, n: nat, url: Str, id: TaskId, task: Task)
    requires n < |tr|
  {
    exists m :: 0 <= m <= n && Holds(tr[m], url, id, task)
  }

  /** Every completion, and the answer under way, was the receiver's task at some
      earlier moment; completions were terminal then. */
  ghost predicate Genuine(tr: seq<World>, n: nat)
    requires n < |tr|
  {
    && (forall d :: d in tr[n].snd.completions ==>
          Terminal(d.result.status) && HeldBefore(tr, n, d.info.agentUrl, d.info.taskId, d.result))
    && (tr[n].observed.Some? && tr[n].observed.value.Found? ==>
          tr[n].snd.poller.Waiting?
          && HeldBefore(tr, n, tr[n].snd.poller.info.agentUrl, tr[n].snd.poller.info.taskId, tr[n].observed.value.task))
  }

  /** How completions, the open question and its answer change in one step. */
  lemma StepEffects(cfgs: Str -> Protocol.Config, w: World, e: Event)
    requires Inv(w) && Enabled(w, e)
    ensures var w' := Step(cfgs, w, e);
            && (forall d :: d in w'.snd.completions ==>
                  d in w.snd.completions
                  || (w.snd.poller.Waiting? && w.observed.Some? && Sender.Completes(w.observed.value)
                      && d == Sender.Done(w.snd.poller.info, w.observed.value.task)))
            && (w'.observed.Some? && w'.observed.value.Found? ==>
                  && w.snd.poller.Waiting? && w'.snd.poller == w.snd.poller
                  && (w'.observed == w.observed
                      || Holds(w, w.snd.poller.info.agentUrl, w.snd.poller.info.taskId, w'.observed.value.task)))
  {
  }

  lemma StillHeld(tr: seq<World>, m: nat, n: nat, url: Str, id: TaskId, task: Task)
    requires m <= n < |tr| && HeldBefore(tr, m, url, id, task)
    ensures HeldBefore(tr, n, url, id, task)
  {
  }

  lemma {:induction false} RunGenuine(cfgs: Str -> Protocol.Config, tr: seq<World>, evs: seq<Event>, n: nat)
    requires Run(cfgs, tr, evs) && n < |tr|
    ensures Genuine(tr, n)
    decreases n
  {
    if n > 0 {
      var w, w' := tr[n - 1], tr[n];
      RunGenuine(cfgs, tr, evs, n - 1);
      RunInv(cfgs, tr, evs, n - 1);
      StepEffects(cfgs, w, evs[n - 1]);
      forall d | d in w'.snd.completions
        ensures Terminal(d.result.status) && HeldBefore(tr, n, d.info.agentUrl, d.info.taskId, d.result)
      {
        StillHeld(tr, n - 1, n, d.info.agentUrl, d.info.taskId, d.result);
      }
      if w'.observed.Some? && w'.observed.value.Found? {
        var info, task := w'.snd.poller.info, w'.observed.value.task;
        if w'.observed == w.observed {
          StillHeld(tr, n - 1, n, info.agentUrl, info.taskId, task);
        } else {
          assert Holds(tr[n - 1], info.agentUrl, info.taskId, task);
        }
      }
    }
  }

  ghost predicate NoRestartOf(evs: seq<Event>, url: Str, lo: nat, hi: nat)
    requires lo <= hi <= |evs|
  {
    forall i :: lo <= i < hi ==> !(evs[i].Remote? && evs[i].url == url && evs[i].e.Restart?)
  }

  lemma RemoteUnlessStepped(cfgs: Str -> Protocol.Config, w: World, e: Event, url: Str)
    requires Enabled(w, e) && url in w.remotes
    ensures url in Step(cfgs, w, e).remotes
    ensures Step(cfgs, w, e).remotes[url] ==
            if e.Remote? && e.url == url then Protocol.Step(cfgs(url), w.remotes[url], e.e) else w.remotes[url]
  {
  }

  /** The receiver at `url` holds a terminal task under `id`. */
  ghost predicate HasTerminal(w: World, url: Str, id: TaskId) {
    url in w.remotes && id in w.remotes[url].st.tasks && Terminal(w.remotes[url].st.tasks[id].status)
  }

  lemma TerminalStep(cfgs: Str -> Protocol.Config, w: World, e: Event, w': World, url: Str, id: TaskId)
    requires Inv(w) && Enabled(w, e) && !(e.Remote? && e.url == url && e.e.Restart?) && w' == Step(cfgs, w, e)
    requires HasTerminal(w, url, id)
    ensures HasTerminal(w', url, id)
  {
    RemoteUnlessStepped(cfgs, w, e, url);
    if e.Remote? && e.url == url {
      ReceiverSafety.TerminalStays(cfgs(url), w.remotes[url], e.e, id);
    }
  }

  /** A task that was terminal stays in the terminal set while its receiver runs. */
  lemma {:induction false} RemoteStaysTerminal(cfgs: Str -> Protocol.Config, tr: seq<World>, evs: seq<Event>,
                                               m: nat, n: nat, url: Str, id: TaskId)
    requires Run(cfgs, tr, evs) && m <= n < |tr| && NoRestartOf(evs, url, m, n)
    requires HasTerminal(tr[m], url, id)
    ensures HasTerminal(tr[n], url, id)
    decreases n
  {
    if m < n {
      RemoteStaysTerminal(cfgs, tr, evs, m, n - 1, url, id);
      RunInv(cfgs, tr, evs, n - 1);
      TerminalStep(cfgs, tr[n - 1], evs[n - 1], tr[n], url, id);
    }
  }

  /** The receiver held the task, terminal, at moment `m`, and has kept it terminal
      ever since, up to a restart. */
  ghost predicate TakenAt(tr: seq<World>, evs: seq<Event>, m: nat, n: nat, url: Str, id: TaskId, task: Task)
    requires m <= n < |tr| == |evs| + 1
  {
    && Holds(tr[m], url, id, task) && Terminal(task.status)
    && forall k :: m <= k <= n && NoRestartOf(evs, url, m, k) ==> HasTerminal(tr[k], url, id)
  }

  lemma HeldIsTaken(cfgs: Str -> Protocol.Config, tr: seq<World>, evs: seq<Event>, n: nat,
                    url: Str, id: TaskId, task: Task)
    requires Run(cfgs, tr, evs) && n < |tr| && HeldBefore(tr, n, url, id, task) && Terminal(task.status)
    ensures exists m :: 0 <= m <= n && TakenAt(tr, evs, m, n, url, id, task)
  {
    var m :| 0 <= m <= n && Holds(tr[m], url, id, task);
    forall k | m <= k <= n && NoRestartOf(evs, url, m, k) ensures HasTerminal(tr[k], url, id) {
      RemoteStaysTerminal(cfgs, tr, evs, m, k, url, id);
    }
    assert TakenAt(tr, evs, m, n, url, id, task);
  }

  /** In every run of sender and receivers, every response delivered to the
      session is a copy of its receiver's task at an earlier moment, when that
      task was COMPLETED, FAILED or REJECTED, and the task has stayed in that set
      since unless the receiver restarted. */
  lemma DeliveredIsGenuine(cfgs: Str -> Protocol.Config, tr: seq<World>, evs: seq<Event>, n: nat, d: Sender.Done)
    requires Run(cfgs, tr, evs) && n < |tr| && d in tr[n].snd.delivered
    ensures exists m :: 0 <= m <= n && TakenAt(tr, evs, m, n, d.info.agentUrl, d.info.taskId, d.result)
  {
    RunGenuine(cfgs, tr, evs, n);
    RunInv(cfgs, tr, evs, n);
    assert d in tr[n].snd.completions;
    HeldIsTaken(cfgs, tr, evs, n, d.info.agentUrl, d.info.taskId, d.result);
  }

  // ------------------------------------------------ results of a send itself

  /** Every message reply still on its way was the receiver's task at some earlier
      moment. */
  ghost predicate GenuineReplies(tr: seq<World>, n: nat)
    requires n < |tr|
  {
    forall id :: id in tr[n].replies ==> HeldBefore(tr, n, tr[n].replies[id].url, id, tr[n].replies[id].task)
  }

  /** The task in the answer that a blocking send's poll has got, if any. */
  function WaitAnswer(w: World, id: TaskId): Option<Task> {
    if id in w.waiting && w.waiting[id].observed.Some? && w.waiting[id].observed.value.Found?
    then Some(w.waiting[id].observed.value.task)
    else None
  }

  /** So was every task in such an answer. */
  ghost predicate GenuineWaits(tr: seq<World>, n: nat)
    requires n < |tr|
  {
    forall id :: WaitAnswer(tr[n], id).Some? ==>
      HeldBefore(tr, n, tr[n].waiting[id].info.agentUrl, id, WaitAnswer(tr[n], id).value)
  }

  /** So was every result a send has handed to its caller, and it was terminal then. */
  ghost predicate GenuineReturns(tr: seq<World>, n: nat)
    requires n < |tr|
  {
    forall id :: id in tr[n].returned ==>
      Terminal(tr[n].returned[id].task.status)
      && HeldBefore(tr, n, tr[n].returned[id].url, id, tr[n].returned[id].task)
  }

  lemma ReplyEffects(cfgs: Str -> Protocol.Config, w: World, e: Event, id: TaskId)
    requires Enabled(w, e)
    ensures var w' := Step(cfgs, w, e);
            id in w'.replies ==>
              || (id in w.replies && w'.replies[id] == w.replies[id])
              || Holds(w', w'.replies[id].url, id, w'.replies[id].task)
  {
  }

  lemma WaitEffects(cfgs: Str -> Protocol.Config, w: World, e: Event, id: TaskId)
    requires Enabled(w, e)
    ensures var w' := Step(cfgs, w, e);
            WaitAnswer(w', id).Some? ==>
              && id in w.waiting && w'.waiting[id].info == w.waiting[id].info
              && (WaitAnswer(w', id) == WaitAnswer(w, id)
                  || Holds(w, w.waiting[id].info.agentUrl, id, WaitAnswer(w', id).value))
  {
  }

  lemma ReturnEffects(cfgs: Str -> Protocol.Config, w: World, e: Event, id: TaskId)
    requires Enabled(w, e)
    ensures var w' := Step(cfgs, w, e);
            id in w'.returned ==>
              || (id in w.returned && w'.returned[id] == w.returned[id])
              || (Terminal(w'.returned[id].task.status)
                  && ((id in w.replies && w'.returned[id] == w.replies[id])
                      || (id in w.waiting && WaitAnswer(w, id) == Some(w'.returned[id].task)
                          && w'.returned[id].url == w.waiting[id].info.agentUrl)))
  {
  }

  lemma {:induction false} RunGenuineReplies(cfgs: Str -> Protocol.Config, tr: seq<World>, evs: seq<Event>, n: nat)
    requires Run(cfgs, tr, evs) && n < |tr|
    ensures GenuineReplies(tr, n)
    decreases n
  {
    if n > 0 {
      RunGenuineReplies(cfgs, tr, evs, n - 1);
      forall id | id in tr[n].replies ensures HeldBefore(tr, n, tr[n].replies[id].url, id, tr[n].replies[id].task) {
        var r := tr[n].replies[id];
        ReplyEffects(cfgs, tr[n - 1], evs[n - 1], id);
        if !Holds(tr[n], r.url, id, r.task) {
          StillHeld(tr, n - 1, n, r.url, id, r.task);
        }
      }
    }
  }

  lemma {:induction false} RunGenuineWaits(cfgs: Str -> Protocol.Config, tr: seq<World>, evs: seq<Event>, n: nat)
    requires Run(cfgs, tr, evs) && n < |tr|
    ensures GenuineWaits(tr, n)
    decreases n
  {
    if n > 0 {
      RunGenuineWaits(cfgs, tr, evs, n - 1);
      forall id | WaitAnswer(tr[n], id).Some?
        ensures HeldBefore(tr, n, tr[n].waiting[id].info.agentUrl, id, WaitAnswer(tr[n], id).value)
      {
        var url, task := tr[n].waiting[id].info.agentUrl, WaitAnswer(tr[n], id).value;
        WaitEffects(cfgs, tr[n - 1], evs[n - 1], id);
        if !Holds(tr[n - 1], url, id, task) {
          StillHeld(tr, n - 1, n, url, id, task);
        }
      }
    }
  }

  lemma {:induction false} RunGenuineReturns(cfgs: Str -> Protocol.Config, tr: seq<World>, evs: seq<Event>, n: nat)
    requires Run(cfgs, tr, evs) && n < |tr|
    ensures GenuineReturns(tr, n)
    decreases n
  {
    if n > 0 {
      RunGenuineReturns(cfgs, tr, evs, n - 1);
      RunGenuineReplies(cfgs, tr, evs, n - 1);
      RunGenuineWaits(cfgs, tr, evs, n - 1);
      forall id | id in tr[n].returned
        ensures Terminal(tr[n].returned[id].task.status)
                && HeldBefore(tr, n, tr[n].returned[id].url, id, tr[n].returned[id].task)
      {
        var r := tr[n].returned[id];
        ReturnEffects(cfgs, tr[n - 1], evs[n - 1], id);
        StillHeld(tr, n - 1, n, r.url, id, r.task);
      }
    }
  }

  /** A result that a send handed straight to its caller is a copy of the
      receiver's task at an earlier moment, and the task has stayed COMPLETED,
      FAILED or REJECTED since unless the receiver restarted. */
  lemma ReturnedIsGenuine(cfgs: Str -> Protocol.Config, tr: seq<World>, evs: seq<Event>, n: nat, id: TaskId)
    requires Run(cfgs, tr, evs) && n < |tr| && id in tr[n].returned
    ensures exists m :: 0 <= m <= n
                        && TakenAt(tr, evs, m, n, tr[n].returned[id].url, id, tr[n].returned[id].task)
  {
    RunGenuineReturns(cfgs, tr, evs, n);
    var r := tr[n].returned[id];
    HeldIsTaken(cfgs, tr, evs, n, r.url, id, r.task);
  }

  /** No task is delivered twice, and none that a send returned to its caller is
      delivered as well. */
  lemma DeliveredOnce(cfgs: Str -> Protocol.Config, tr: seq<World>, evs: seq<Event>, n: nat, i: nat)
    requires Run(cfgs, tr, evs) && n < |tr| && i < |tr[n].snd.delivered|
    ensures var id := tr[n].snd.delivered[i].info.taskId;
            && (forall j :: 0 <= j < |tr[n].snd.delivered| && j != i ==> tr[n].snd.delivered[j].info.taskId != id)
            && id !in tr[n].returned && id !in tr[n].waiting
            && id !in Sender.InfoIds(tr[n].snd.pending) && id !in Sender.DoneIds(tr[n].snd.completed)
  {
    RunInv(cfgs, tr, evs, n);
    var s := tr[n].snd;
    var id := s.delivered[i].info.taskId;
    forall j | 0 <= j < |s.delivered| && j != i ensures s.delivered[j].info.taskId != id {
      if j < i {
        Sender.DeliveredDistinct(s, j, i);
      } else {
        Sender.DeliveredDistinct(s, i, j);
      }
    }
    assert Sender.DoneIds(s.delivered)[i] == id;
    assert id in multiset(Sender.DoneIds(s.delivered));
    assert Sender.Places(s)[id] == multiset(s.tracked)[id];
    assert id in s.tracked;
    assert PhaseOk(tr[n], id);
  }

  // ------------------------------------------------ every send ends somewhere

  /** In how many of the three places the task of a send is: still polled by the
      send, handed to its caller, left to the poller. */
  function PlaceCount(w: World, id: TaskId): nat {
    (if id in w.waiting then 1 else 0) + (if id in w.returned then 1 else 0) + (if id in w.snd.tracked then 1 else 0)
  }

  /** A poll of this send has met an unexpected exception, which ends the send. */
  predicate SendRaises(w: World, e: Event, id: TaskId) {
    e == WaitSettle(id) && id in w.waiting && w.waiting[id].observed == Some(Sender.Broken)
  }

  lemma PlaceCountAtMostOne(w: World, id: TaskId)
    requires Inv(w)
    ensures PlaceCount(w, id) <= 1
  {
    assert PhaseOk(w, id);
  }

  /** The task's reply has been received: it can enter none of the places anew. */
  ghost predicate ReplyTaken(w: World, id: TaskId) {
    Issued(w, id) && !Flying(w, id) && id !in w.replies
  }

  lemma ReplyTakenRemote(cfgs: Str -> Protocol.Config, w: World, w': World, url: Str, e: Protocol.Event, id: TaskId)
    requires Inv(w) && Enabled(w, Remote(url, e)) && w' == Step(cfgs, w, Remote(url, e)) && ReplyTaken(w, id)
    ensures ReplyTaken(w', id)
  {
    RemoteIds(cfgs(url), w.remotes[url], e);
    IssuedStays(w, w', url, id);
    FlyingAfter(w, w', url, e, id);
  }

  /** The sender's own steps. */
  lemma ReplyTakenHere(w: World, w': World, id: TaskId)
    requires w'.remotes == w.remotes && id !in w'.replies && Issued(w, id) && !Flying(w, id)
    ensures ReplyTaken(w', id)
  {
    assert Issued(w', id) == Issued(w, id) && Flying(w', id) == Flying(w, id);
  }

  lemma OwnStep(cfgs: Str -> Protocol.Config, w: World, e: Event)
    requires Enabled(w, e) && !e.Remote?
    ensures var w' := Step(cfgs, w, e);
            w'.remotes == w.remotes && w'.replies == if e.TakeReply? then w.replies - {e.id} else w.replies
  {
  }

  lemma ReplyTakenStep(cfgs: Str -> Protocol.Config, w: World, e: Event, w': World, id: TaskId)
    requires Inv(w) && Enabled(w, e) && w' == Step(cfgs, w, e)
    requires ReplyTaken(w, id) || (e.TakeReply? && e.id == id)
    ensures ReplyTaken(w', id)
  {
    if e.Remote? {
      ReplyTakenRemote(cfgs, w, w', e.url, e.e, id);
    } else {
      assert PhaseOk(w, id);
      OwnStep(cfgs, w, e);
      ReplyTakenHere(w, w', id);
    }
  }

  /** No step but a raising poll of its own takes the task of a send out of the
      three places. */
  lemma PlaceKeeps(cfgs: Str -> Protocol.Config, w: World, e: Event, id: TaskId)
    requires Enabled(w, e) && PhaseOk(w, id) && !SendRaises(w, e, id)
    requires PlaceCount(w, id) > 0 || (e.TakeReply? && e.id == id)
    ensures PlaceCount(Step(cfgs, w, e), id) > 0
  {
  }

  /** Where the sender's own steps can put a task: the one whose reply arrives, or
      the one whose send gives up or settles. */
  lemma PlacesChange(cfgs: Str -> Protocol.Config, w: World, e: Event)
    requires Enabled(w, e) && !e.Remote?
    ensures var w' := Step(cfgs, w, e);
            && (forall k :: k in w'.waiting ==> k in w.waiting || (e.TakeReply? && e.id == k))
            && (forall k :: k in w'.returned ==>
                  k in w.returned || (e.TakeReply? && e.id == k) || (e.WaitSettle? && e.id == k))
            && (forall k :: k in w'.snd.tracked ==>
                  k in w.snd.tracked || (e.TakeReply? && e.id == k) || (e.GiveUp? && k == w.waiting[e.id].info.taskId))
  {
  }

  /** Only its reply brings it there. */
  lemma PlaceStaysEmpty(cfgs: Str -> Protocol.Config, w: World, e: Event, id: TaskId)
    requires Inv(w) && Enabled(w, e) && PlaceCount(w, id) == 0 && id !in w.replies
    ensures PlaceCount(Step(cfgs, w, e), id) == 0
  {
    if !e.Remote? {
      PlacesChange(cfgs, w, e);
      if e.GiveUp? {
        assert PhaseOk(w, e.id);
      }
    }
  }

  lemma RaisedIsNowhere(cfgs: Str -> Protocol.Config, w: World, e: Event, id: TaskId)
    requires Inv(w) && Enabled(w, e) && SendRaises(w, e, id)
    ensures PlaceCount(Step(cfgs, w, e), id) == 0
  {
    assert PhaseOk(w, id);
  }

  /** A poll of the send has raised in the steps after `m` and before `n`. */
  ghost predicate HasRaised(tr: seq<World>, evs: seq<Event>, m: nat, n: nat, id: TaskId)
    requires n <= |evs| < |tr|
  {
    exists k :: m < k < n && SendRaises(tr[k], evs[k], id)
  }

  ghost predicate SendAccounted(tr: seq<World>, evs: seq<Event>, m: nat, n: nat, id: TaskId)
    requires n <= |evs| < |tr|
  {
    ReplyTaken(tr[n], id) && PlaceCount(tr[n], id) == if HasRaised(tr, evs, m, n, id) then 0 else 1
  }

  lemma HasRaisedStep(tr: seq<World>, evs: seq<Event>, m: nat, n: nat, id: TaskId)
    requires m < n < |evs| < |tr|
    ensures HasRaised(tr, evs, m, n + 1, id) <==> HasRaised(tr, evs, m, n, id) || SendRaises(tr[n], evs[n], id)
  {
  }

  lemma SendAccountedStep(cfgs: Str -> Protocol.Config, tr: seq<World>, evs: seq<Event>, m: nat, n: nat, id: TaskId)
    requires m < n < |evs| < |tr| && SendAccounted(tr, evs, m, n, id) && GoodStep(cfgs, tr, evs, n)
    ensures SendAccounted(tr, evs, m, n + 1, id)
  {
    HasRaisedStep(tr, evs, m, n, id);
    PlaceCountAtMostOne(tr[n + 1], id);
    ReplyTakenStep(cfgs, tr[n], evs[n], tr[n + 1], id);
    if SendRaises(tr[n], evs[n], id) {
      RaisedIsNowhere(cfgs, tr[n], evs[n], id);
    } else if PlaceCount(tr[n], id) > 0 {
      assert PhaseOk(tr[n], id);
      PlaceKeeps(cfgs, tr[n], evs[n], id);
    } else {
      PlaceStaysEmpty(cfgs, tr[n], evs[n], id);
    }
  }

  lemma SendBegins(cfgs: Str -> Protocol.Config, tr: seq<World>, evs: seq<Event>, m: nat, id: TaskId)
    requires m < |evs| < |tr| && evs[m].TakeReply? && evs[m].id == id && GoodStep(cfgs, tr, evs, m)
    ensures SendAccounted(tr, evs, m, m + 1, id)
  {
    assert PhaseOk(tr[m], id);
    PlaceCountAtMostOne(tr[m + 1], id);
    PlaceKeeps(cfgs, tr[m], evs[m], id);
    ReplyTakenStep(cfgs, tr[m], evs[m], tr[m + 1], id);
  }

  ghost predicate GoodStep(cfgs: Str -> Protocol.Config, tr: seq<World>, evs: seq<Event>, n: nat)
    requires n < |evs| < |tr|
  {
    Inv(tr[n]) && Inv(tr[n + 1]) && Enabled(tr[n], evs[n]) && tr[n + 1] == Step(cfgs, tr[n], evs[n])
  }

  lemma RunGoodStep(cfgs: Str -> Protocol.Config, tr: seq<World>, evs: seq<Event>, n: nat)
    requires Run(cfgs, tr, evs) && n < |evs|
    ensures GoodStep(cfgs, tr, evs, n)
  {
    RunInv(cfgs, tr, evs, n);
    RunInv(cfgs, tr, evs, n + 1);
  }

  lemma SendFirst(cfgs: Str -> Protocol.Config, tr: seq<World>, evs: seq<Event>, m: nat, id: TaskId)
    requires Run(cfgs, tr, evs) && m < |evs| && evs[m].TakeReply? && evs[m].id == id
    ensures SendAccounted(tr, evs, m, m + 1, id)
  {
    RunGoodStep(cfgs, tr, evs, m);
    SendBegins(cfgs, tr, evs, m, id);
  }

  lemma SendNext(cfgs: Str -> Protocol.Config, tr: seq<World>, evs: seq<Event>, m: nat, n: nat, id: TaskId)
    requires Run(cfgs, tr, evs) && m < n < |evs| && SendAccounted(tr, evs, m, n, id)
    ensures SendAccounted(tr, evs, m, n + 1, id)
  {
    RunGoodStep(cfgs, tr, evs, n);
    SendAccountedStep(cfgs, tr, evs, m, n, id);
  }

  /** Once its reply has arrived, the task of a send is in exactly one of the three
      places at every later moment, unless and until a poll of the send itself met
      an unexpected exception: then it is in none. */
  lemma EverySendIsSomewhere(cfgs: Str -> Protocol.Config, tr: seq<World>, evs: seq<Event>, m: nat, n: nat, id: TaskId)
    requires Run(cfgs, tr, evs) && m < n < |tr| && evs[m].TakeReply? && evs[m].id == id
    ensures PlaceCount(tr[n], id) == if HasRaised(tr, evs, m, n, id) then 0 else 1
  {
    var holds := (k: nat) => k <= |evs| && SendAccounted(tr, evs, m, k, id);
    SendFirst(cfgs, tr, evs, m, id);
    forall k: nat | m + 1 <= k < n && holds(k) ensures holds(k + 1) {
      SendNext(cfgs, tr, evs, m, k, id);
    }
    Onward(holds, m + 1, n);
  }

  /** No task is both handed to a send's caller and tracked, a send still polling
      has done neither, and a tracked task is in one place of the poller's. */
  lemma ReturnedOrTracked(cfgs: Str -> Protocol.Config, tr: seq<World>, evs: seq<Event>, n: nat, id: TaskId)
    requires Run(cfgs, tr, evs) && n < |tr|
    ensures !(id in tr[n].returned && id in tr[n].snd.tracked)
    ensures id in tr[n].waiting ==> id !in tr[n].returned && id !in tr[n].snd.tracked
    ensures id in tr[n].snd.tracked <==> Sender.Places(tr[n].snd)[id] == 1
  {
    RunInv(cfgs, tr, evs, n);
    assert PhaseOk(tr[n], id);
    assert Sender.Places(tr[n].snd)[id] == multiset(tr[n].snd.tracked)[id];
  }
}
