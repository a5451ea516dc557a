/** One sender and any number of receivers: requests, replies, polls and answers
    interleaved in every order. */
module World {
  import opened Options
  import opened Json
  import opened Pending
  import opened Registry
  import Protocol
  import Invariant
  import Sender
  import Tool

  /** The HTTP reply of a message request, carrying the task as it was then. */
  datatype Reply = Reply(url: Str, task: Task)

  /** A blocking send between polls, with the polls it has left; `observed` is the
      answer to its outstanding status request once the receiver has given it. */
  datatype Wait = Wait(info: Sender.Info, polls: nat, observed: Option<Sender.PollReply>)

  /** `observed` is the answer to the poller's outstanding status request once the
      receiver has given it; `replies` are message replies not yet received;
      `returned` are results handed to the caller of a send. */
  datatype World = World(
    remotes: map<Str, Protocol.State>,
    snd: Sender.State,
    observed: Option<Sender.PollReply>,
    replies: map<TaskId, Reply>,
    waiting: map<TaskId, Wait>,
    returned: map<TaskId, Reply>)

  /** How a status request fails on the way, if it does. */
  datatype Fault = NoFault | Lost | Odd

  datatype Event =
    | Remote(url: Str, e: Protocol.Event)
    | TakeReply(id: TaskId, agent: Str, now: Str, blocking: bool, timeout: real)
    | WaitObserve(id: TaskId, fault: Fault)
    | WaitSettle(id: TaskId)
    | GiveUp(id: TaskId)
    | BeginRound
    | Next
    | Observe(fault: Fault)
    | Settle
    | Deliver

  ghost predicate Enabled(w: World, e: Event) {
    match e
    case Remote(url, pe) =>
      && url in w.remotes && Protocol.Enabled(w.remotes[url], pe)
      && (pe.Receive? ==> forall u :: u in w.remotes ==> pe.id !in w.remotes[u].issued)
    case TakeReply(id, _, _, _, _) => id in w.replies
    case WaitObserve(id, _) => id in w.waiting && w.waiting[id].polls > 0 && w.waiting[id].observed.None?
    case WaitSettle(id) => id in w.waiting && w.waiting[id].polls > 0 && w.waiting[id].observed.Some?
    case GiveUp(id) => id in w.waiting && w.waiting[id].polls == 0
    case BeginRound => w.snd.poller.Idle?
    case Next => w.snd.poller.Round?
    case Observe(_) => w.snd.poller.Waiting? && w.observed.None?
    case Settle => w.snd.poller.Waiting? && w.observed.Some?
    case Deliver => true
  }

  /** A status request to `url` answered now. */
  function Status(w: World, url: Str, id: TaskId, fault: Fault): Sender.PollReply {
    if fault.Lost? then Sender.Unavailable
    else if fault.Odd? then Sender.Broken
    else if url in w.remotes && id in w.remotes[url].st.tasks then Sender.Found(w.remotes[url].st.tasks[id])
    else Sender.Unavailable
  }

  /** Messages replied to by a receiver's step: requests that end without a child
      session, and finishes other than the HTTP 500 of a crashed one. */
  function RepliesAfter(replies: map<TaskId, Reply>, url: Str, s': Protocol.State, e: Protocol.Event)
    : map<TaskId, Reply>
  {
    if ((e.Receive? && e.id !in s'.flights) || (e.Finish? && e.outcome.Answered?)) && e.id in s'.st.tasks
    then replies[e.id := Reply(url, s'.st.tasks[e.id])]
    else replies
  }

  function AfterTakeReply(w: World, id: TaskId, agent: Str, now: Str, blocking: bool, timeout: real): World
    requires id in w.replies
  {
    var r := w.replies[id];
    var info := Sender.Info(id, r.url, agent, now);
    var w1 := w.(replies := w.replies - {id});
    if Terminal(r.task.status) then w1.(returned := w.returned[id := r])
    else if blocking then w1.(waiting := w.waiting[id := Wait(info, Tool.Polls(timeout), None)])
    else w1.(snd := Sender.AfterTrack(w.snd, info))
  }

  /** A blocking send takes the answer to its poll as `Tool.SendBlocking` does; an
      unexpected exception ends it without a result. */
  function AfterWaitSettle(w: World, id: TaskId): World
    requires id in w.waiting && w.waiting[id].polls > 0 && w.waiting[id].observed.Some?
  {
    var wait := w.waiting[id];
    match Tool.AfterPoll(wait.polls, wait.observed.value)
    case Polling(left) => w.(waiting := w.waiting[id := Wait(wait.info, left, None)])
    case Ended(Returned(task)) =>
      w.(waiting := w.waiting - {id}, returned := w.returned[id := Reply(wait.info.agentUrl, task)])
    case Ended(_) => w.(waiting := w.waiting - {id})
  }

  function Step(cfgs: Str -> Protocol.Config, w: World, e: Event): World
    requires Enabled(w, e)
  {
    match e
    case Remote(url, pe) =>
      var s' := Protocol.Step(cfgs(url), w.remotes[url], pe);
      w.(remotes := w.remotes[url := s'], replies := RepliesAfter(w.replies, url, s', pe))
    case TakeReply(id, agent, now, blocking, timeout) => AfterTakeReply(w, id, agent, now, blocking, timeout)
    case WaitObserve(id, fault) =>
      var wait := w.waiting[id];
      w.(waiting := w.waiting[id := wait.(observed := Some(Status(w, wait.info.agentUrl, id, fault)))])
    case WaitSettle(id) => AfterWaitSettle(w, id)
    case GiveUp(id) => w.(waiting := w.waiting - {id}, snd := Sender.AfterTrack(w.snd, w.waiting[id].info))
    case BeginRound => w.(snd := Sender.After(w.snd, Sender.BeginRound))
    case Next => w.(snd := Sender.After(w.snd, Sender.Next))
    case Observe(fault) =>
      w.(observed := Some(Status(w, w.snd.poller.info.agentUrl, w.snd.poller.info.taskId, fault)))
    case Settle => w.(snd := Sender.After(w.snd, Sender.Reply(w.observed.value)), observed := None)
    case Deliver => w.(snd := Sender.After(w.snd, Sender.Deliver))
  }

  ghost predicate Init(w: World) {
    && (forall u :: u in w.remotes ==> Protocol.Init(w.remotes[u]))
    && w.snd == Sender.EMPTY && w.observed == None && w.replies == map[] && w.waiting == map[] && w.returned == map[]
  }

  ghost predicate Run(cfgs: Str -> Protocol.Config, tr: seq<World>, evs: seq<Event>) {
    && |tr| == |evs| + 1
    && Init(tr[0])
    && (forall i {:trigger Enabled(tr[i], evs[i])} ::
          0 <= i < |evs| ==> Enabled(tr[i], evs[i]) && tr[i + 1] == Step(cfgs, tr[i], evs[i]))
  }

  // --------------------------------------------------------------- invariant

  ghost predicate Issued(w: World, id: TaskId) {
    exists u :: u in w.remotes && id in w.remotes[u].issued
  }

  ghost predicate Flying(w: World, id: TaskId) {
    exists u :: u in w.remotes && id in w.remotes[u].flights
  }

  /** An id is with at most one of: a suspended request, an undelivered reply, a
      waiting send, a finished send, the poller; and only issued ids are anywhere. */
  ghost predicate PhaseOk(w: World, id: TaskId) {
    && (Flying(w, id) ==> id !in w.replies && id !in w.waiting && id !in w.returned && id !in w.snd.tracked)
    && (id in w.replies ==> id !in w.waiting && id !in w.returned && id !in w.snd.tracked)
    && (id in w.waiting ==> id !in w.returned && id !in w.snd.tracked && w.waiting[id].info.taskId == id)
    && (id in w.returned ==> id !in w.snd.tracked)
    && (Flying(w, id) || id in w.replies || id in w.waiting || id in w.returned || id in w.snd.tracked ==>
          Issued(w, id))
  }

  /** A suspended request's id is known to its own receiver only. */
  ghost predicate OwnersOk(w: World) {
    forall u, v, id :: u in w.remotes && v in w.remotes && u != v && id in w.remotes[u].flights ==>
      id !in w.remotes[v].issued
  }

  ghost predicate Inv(w: World) {
    && (forall u :: u in w.remotes ==> Invariant.Inv(w.remotes[u]))
    && Sender.Inv(w.snd)
    && OwnersOk(w)
    && (forall id :: PhaseOk(w, id))
    && (w.observed.Some? ==> w.snd.poller.Waiting?)
  }

  lemma FlightIssued(s: Protocol.State, id: TaskId)
    requires Invariant.Inv(s)
    ensures id in s.flights || id in s.st.tasks ==> id in s.issued
  {
    assert Invariant.ViewOk(s.st.queue.Some?, Invariant.ViewOf(s, id));
  }

  /** A suspended request's id is issued, by its own receiver only. */
  lemma FlyingAt(w: World, u: Str, id: TaskId)
    requires Inv(w) && u in w.remotes && id in w.remotes[u].flights
    ensures id in w.remotes[u].issued
    ensures forall v :: v in w.remotes && v != u ==> id !in w.remotes[v].issued && id !in w.remotes[v].flights
  {
    FlightIssued(w.remotes[u], id);
    forall v | v in w.remotes && v != u ensures id !in w.remotes[v].flights {
      FlightIssued(w.remotes[v], id);
    }
  }

  /** The parts of a receiver's step that matter to the ids, for `s` to `s'`. */
  ghost predicate IdsStep(s: Protocol.State, e: Protocol.Event, s': Protocol.State) {
    && s.issued <= s'.issued
    && (forall id :: id in s'.issued ==> id in s.issued || (e.Receive? && e.id == id))
    && (forall id :: id in s'.flights ==> id in s.flights || (e.Receive? && e.id == id && id in s'.issued))
    && (e.Finish? ==> e.id !in s'.flights && e.id in s.flights)
    && (e.Receive? && e.id in s'.st.tasks ==> e.id in s'.issued)
  }

  lemma RemoteIds(cfg: Protocol.Config, s: Protocol.State, e: Protocol.Event)
    requires Invariant.Inv(s) && Protocol.Enabled(s, e)
    ensures IdsStep(s, e, Protocol.Step(cfg, s, e))
  {
    if e.Receive? {
      FlightIssued(s, e.id);
    }
  }

  lemma OwnersKept(w: World, w': World, url: Str, e: Protocol.Event)
    requires Inv(w) && Enabled(w, Remote(url, e))
    requires url in w'.remotes && w'.remotes == w.remotes[url := w'.remotes[url]]
    requires IdsStep(w.remotes[url], e, w'.remotes[url])
    ensures OwnersOk(w')
  {
    forall u, v, id | u in w'.remotes && v in w'.remotes && u != v && id in w'.remotes[u].flights
      ensures id !in w'.remotes[v].issued
    {
      if u in w.remotes && id in w.remotes[u].flights {
        FlyingAt(w, u, id);
      }
    }
  }

  lemma IssuedStays(w: World, w': World, url: Str, id: TaskId)
    requires url in w.remotes && url in w'.remotes && w'.remotes == w.remotes[url := w'.remotes[url]]
    requires w.remotes[url].issued <= w'.remotes[url].issued
    ensures Issued(w, id) ==> Issued(w', id)
  {
    if Issued(w, id) {
      var u :| u in w.remotes && id in w.remotes[u].issued;
      assert u in w'.remotes && id in w'.remotes[u].issued;
    }
  }

  /** After a step of `url`, an id is suspended where it was, or freshly at `url`. */
  lemma FlyingAfter(w: World, w': World, url: Str, e: Protocol.Event, id: TaskId)
    requires Inv(w) && Enabled(w, Remote(url, e))
    requires url in w'.remotes && w'.remotes == w.remotes[url := w'.remotes[url]]
    requires IdsStep(w.remotes[url], e, w'.remotes[url])
    ensures Flying(w', id) ==> Flying(w, id) || (e.Receive? && e.id == id && id in w'.remotes[url].flights)
    ensures e.Finish? && e.id == id ==> Flying(w, id) && !Flying(w', id)
  {
    if e.Finish? && e.id == id {
      FlyingAt(w, url, id);
    }
    if Flying(w', id) {
      var u :| u in w'.remotes && id in w'.remotes[u].flights;
      assert u != url ==> id in w.remotes[u].flights;
    }
  }

  lemma PhaseKept(w: World, w': World, url: Str, e: Protocol.Event, id: TaskId)
    requires Inv(w) && Enabled(w, Remote(url, e))
    requires url in w'.remotes && w'.remotes == w.remotes[url := w'.remotes[url]]
    requires w' == w.(remotes := w'.remotes, replies := RepliesAfter(w.replies, url, w'.remotes[url], e))
    requires IdsStep(w.remotes[url], e, w'.remotes[url])
    ensures PhaseOk(w', id)
  {
    assert PhaseOk(w, id);
    IssuedStays(w, w', url, id);
    FlyingAfter(w, w', url, e, id);
    if e.Receive? && e.id == id {
      assert !Issued(w, id);
    }
  }

  lemma RemoteKeeps(cfgs: Str -> Protocol.Config, w: World, url: Str, e: Protocol.Event)
    requires Inv(w) && Enabled(w, Remote(url, e))
    ensures Inv(Step(cfgs, w, Remote(url, e)))
  {
    var w' := Step(cfgs, w, Remote(url, e));
    Invariant.StepKeeps(cfgs(url), w.remotes[url], e);
    RemoteIds(cfgs(url), w.remotes[url], e);
    assert w'.remotes[url] == Protocol.Step(cfgs(url), w.remotes[url], e);
    OwnersKept(w, w', url, e);
    forall id ensures PhaseOk(w', id) {
      PhaseKept(w, w', url, e, id);
    }
  }

  /** Steps of the sender's side leave the receivers alone. */
  lemma SenderKeeps(w: World, w': World)
    requires Inv(w) && w'.remotes == w.remotes
    requires Sender.Inv(w'.snd) && (w'.observed.Some? ==> w'.snd.poller.Waiting?)
    requires forall id :: PhaseOk(w', id)
    ensures Inv(w')
  {
  }

  lemma SamePlaces(w: World, w': World)
    requires Inv(w) && w'.remotes == w.remotes && w'.replies == w.replies && w'.waiting == w.waiting
    requires w'.returned == w.returned && w'.snd.tracked == w.snd.tracked
    ensures forall id :: PhaseOk(w', id)
  {
    forall id ensures PhaseOk(w', id) {
      assert PhaseOk(w, id);
      assert Issued(w', id) == Issued(w, id) && Flying(w', id) == Flying(w, id);
    }
  }

  /** An id moves from a reply or a waiting send to another place of the sender. */
  lemma PlaceMoves(w: World, w': World, id: TaskId)
    requires Inv(w) && w'.remotes == w.remotes && (id in w.replies || id in w.waiting)
    requires id !in w'.replies
    requires id in w'.waiting ==> id !in w'.returned && id !in w'.snd.tracked && w'.waiting[id].info.taskId == id
    requires id in w'.returned ==> id !in w'.snd.tracked
    requires forall k :: k != id ==> && (k in w'.replies <==> k in w.replies)
                                     && (k in w'.waiting <==> k in w.waiting)
                                     && (k in w.waiting ==> w'.waiting[k] == w.waiting[k])
                                     && (k in w'.returned <==> k in w.returned)
                                     && (k in w'.snd.tracked <==> k in w.snd.tracked)
    ensures forall k :: PhaseOk(w', k)
  {
    forall k ensures PhaseOk(w', k) {
      assert PhaseOk(w, k);
      assert Issued(w', k) == Issued(w, k) && Flying(w', k) == Flying(w, k);
    }
  }

  lemma TrackKeepsSender(s: Sender.State, info: Sender.Info)
    requires Sender.Inv(s) && info.taskId !in s.tracked
    ensures Sender.Inv(Sender.AfterTrack(s, info))
    ensures s.poller == Sender.AfterTrack(s, info).poller
  {
    Sender.TrackKeeps(s, info);
  }

  lemma TakeReplyKeeps(w: World, id: TaskId, agent: Str, now: Str, blocking: bool, timeout: real)
    requires Inv(w) && id in w.replies
    ensures Inv(AfterTakeReply(w, id, agent, now, blocking, timeout))
  {
    var w' := AfterTakeReply(w, id, agent, now, blocking, timeout);
    assert PhaseOk(w, id);
    var info := Sender.Info(id, w.replies[id].url, agent, now);
    if w'.snd != w.snd {
      TrackKeepsSender(w.snd, info);
    }
    PlaceMoves(w, w', id);
    SenderKeeps(w, w');
  }

  lemma WaitObserveKeeps(w: World, w': World, id: TaskId)
    requires Inv(w) && id in w.waiting && id in w'.waiting && w'.waiting[id].info == w.waiting[id].info
    requires w' == w.(waiting := w.waiting[id := w'.waiting[id]])
    ensures Inv(w')
  {
    assert PhaseOk(w, id);
    PlaceMoves(w, w', id);
    SenderKeeps(w, w');
  }

  lemma WaitSettleKeeps(w: World, id: TaskId)
    requires Inv(w) && id in w.waiting && w.waiting[id].polls > 0 && w.waiting[id].observed.Some?
    ensures Inv(AfterWaitSettle(w, id))
  {
    assert PhaseOk(w, id);
    PlaceMoves(w, AfterWaitSettle(w, id), id);
    SenderKeeps(w, AfterWaitSettle(w, id));
  }

  lemma GiveUpKeeps(w: World, w': World, id: TaskId)
    requires Inv(w) && id in w.waiting
    requires w' == w.(waiting := w.waiting - {id}, snd := Sender.AfterTrack(w.snd, w.waiting[id].info))
    ensures Inv(w')
  {
    assert PhaseOk(w, id);
    TrackKeepsSender(w.snd, w.waiting[id].info);
    PlaceMoves(w, w', id);
    SenderKeeps(w, w');
  }

  lemma SettleKeeps(w: World, w': World)
    requires Inv(w) && w.snd.poller.Waiting? && w.observed.Some?
    requires w' == w.(snd := Sender.AfterReply(w.snd, w.observed.value), observed := None)
    ensures Inv(w')
  {
    Sender.ReplyKeeps(w.snd, w.observed.value);
    SamePlaces(w, w');
    SenderKeeps(w, w');
  }

  /** Round steps and deliveries. */
  lemma PollerKeeps(w: World, w': World, e: Sender.Step)
    requires Inv(w) && (e.BeginRound? || e.Next? || e.Deliver?) && Sender.Enabled(w.snd, e)
    requires w' == w.(snd := Sender.After(w.snd, e))
    ensures Inv(w')
  {
    Sender.StepKeeps(w.snd, e);
    SamePlaces(w, w');
    SenderKeeps(w, w');
  }

  lemma ObserveKeeps(w: World, w': World, reply: Sender.PollReply)
    requires Inv(w) && w.snd.poller.Waiting? && w' == w.(observed := Some(reply))
    ensures Inv(w')
  {
    SamePlaces(w, w');
    SenderKeeps(w, w');
  }

  lemma StepKeeps(cfgs: Str -> Protocol.Config, w: World, e: Event)
    requires Inv(w) && Enabled(w, e)
    ensures Inv(Step(cfgs, w, e))
  {
    var w' := Step(cfgs, w, e);
    match e
    case Remote(url, pe) => RemoteKeeps(cfgs, w, url, pe);
    case TakeReply(id, agent, now, blocking, timeout) => TakeReplyKeeps(w, id, agent, now, blocking, timeout);
    case WaitObserve(id, fault) => WaitObserveKeeps(w, w', id);
    case WaitSettle(id) => WaitSettleKeeps(w, id);
    case GiveUp(id) => GiveUpKeeps(w, w', id);
    case BeginRound => PollerKeeps(w, w', Sender.BeginRound);
    case Next => PollerKeeps(w, w', Sender.Next);
    case Observe(fault) =>
      ObserveKeeps(w, w', Status(w, w.snd.poller.info.agentUrl, w.snd.poller.info.taskId, fault));
    case Settle => SettleKeeps(w, w');
    case Deliver => PollerKeeps(w, w', Sender.Deliver);
  }

  lemma InitInv(w: World)
    requires Init(w)
    ensures Inv(w)
  {
    forall u | u in w.remotes ensures Invariant.Inv(w.remotes[u]) {
      Invariant.InitInv(w.remotes[u]);
    }
    assert Sender.Places(w.snd) == multiset(w.snd.tracked);
    forall id ensures PhaseOk(w, id) {
    }
  }

  lemma RunStep(cfgs: Str -> Protocol.Config, tr: seq<World>, evs: seq<Event>, m: nat, n: nat)
    requires Run(cfgs, tr, evs) && n == m + 1 < |tr| && Inv(tr[m])
    ensures Inv(tr[n])
  {
    assert Enabled(tr[m], evs[m]);
    StepKeeps(cfgs, tr[m], evs[m]);
  }

  lemma RunStart(cfgs: Str -> Protocol.Config, tr: seq<World>, evs: seq<Event>)
    requires Run(cfgs, tr, evs)
    ensures Inv(tr[0])
  {
    InitInv(tr[0]);
  }

  lemma RunInv(cfgs: Str -> Protocol.Config, tr: seq<World>, evs: seq<Event>, n: nat)
    requires Run(cfgs, tr, evs) && n < |tr|
    ensures Inv(tr[n])
  {
    var holds := (k: nat) => k < |tr| && Inv(tr[k]);
    RunStart(cfgs, tr, evs);
    forall k: nat | k < n && holds(k) ensures holds(k + 1) {
      RunStep(cfgs, tr, evs, k, k + 1);
    }
    Onward(holds, 0, n);
  }
}
