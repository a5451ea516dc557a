/** Outgoing tasks on the sender's side: tracked, polled in rounds, completed and
    delivered to the session, with every await a point of interleaving. */
module Sender {
  import opened Options
  import opened Json
  import opened Pending
  import opened Registry

  datatype Info = Info(taskId: TaskId, agentUrl: Str, agentName: Str, submittedAt: Str)

  /** A completed outgoing task: its tracking info and the polled result. */
  datatype Done = Done(info: Info, result: Task)

  /** What a status request comes to: a task, a ConnectionError or ValueError, or
      any other exception. */
  datatype PollReply = Found(task: Task) | Unavailable | Broken

  // ---------------------------------------- the dict of pending tasks, in order

  function InfoIds(p: seq<Info>): seq<TaskId> {
    seq(|p|, i requires 0 <= i < |p| => p[i].taskId)
  }

  function DoneIds(c: seq<Done>): seq<TaskId> {
    seq(|c|, i requires 0 <= i < |c| => c[i].info.taskId)
  }

  function InfoIndex(p: seq<Info>, id: TaskId): (i: nat)
    ensures i <= |p|
    ensures forall j :: 0 <= j < i ==> p[j].taskId != id
    ensures i < |p| ==> p[i].taskId == id
  {
    FirstIndex(p, (info: Info) => info.taskId == id)
  }

  predicate Tracks(p: seq<Info>, id: TaskId) { InfoIndex(p, id) < |p| }

  /** pending[id] = info: in place for a known id, at the end for a new one. */
  function Tracked(p: seq<Info>, info: Info): seq<Info> {
    var i := InfoIndex(p, info.taskId);
    if i < |p| then p[i := info] else p + [info]
  }

  /** del pending[id] */
  function Untracked(p: seq<Info>, id: TaskId): seq<Info> {
    var i := InfoIndex(p, id);
    if i < |p| then p[..i] + p[i + 1..] else p
  }

  // ------------------------------------------------------------------- steps

  /** Where the background poller is: between rounds, before the next id of its
      snapshot, or waiting for the reply about `info`. */
  datatype Poller = Idle | Round(todo: seq<TaskId>) | Waiting(info: Info, todo: seq<TaskId>)

  /** `tracked` and `completions` record every tracked id and every completion so far. */
  datatype State = State(
    pending: seq<Info>, completed: seq<Done>, delivered: seq<Done>, poller: Poller,
    tracked: set<TaskId>, completions: seq<Done>)

  datatype Step =
    | Track(info: Info)
    | BeginRound
    | Next
    | Reply(reply: PollReply)
    | Deliver

  predicate Enabled(s: State, e: Step) {
    match e
    case Track(info) => info.taskId !in s.tracked
    case BeginRound => s.poller.Idle?
    case Next => s.poller.Round?
    case Reply(_) => s.poller.Waiting?
    case Deliver => true
  }

  predicate Completes(reply: PollReply) { reply.Found? && Terminal(reply.task.status) }

  /** After the reply the round goes on, unless an exception cut it short. */
  function AfterReply(s: State, reply: PollReply): State
    requires s.poller.Waiting?
  {
    var info, todo := s.poller.info, s.poller.todo;
    if Completes(reply) then
      s.(completed := s.completed + [Done(info, reply.task)],
         completions := s.completions + [Done(info, reply.task)],
         pending := Untracked(s.pending, info.taskId),
         poller := if Tracks(s.pending, info.taskId) then Round(todo) else Idle)
    else
      s.(poller := if reply.Broken? then Idle else Round(todo))
  }

  function AfterTrack(s: State, info: Info): State {
    s.(pending := Tracked(s.pending, info), tracked := s.tracked + {info.taskId})
  }

  function After(s: State, e: Step): State
    requires Enabled(s, e)
  {
    match e
    case Track(info) => AfterTrack(s, info)
    case BeginRound => s.(poller := Round(InfoIds(s.pending)))
    case Next =>
      var todo := s.poller.todo;
      if todo == [] then s.(poller := Idle)
      else
        var i := InfoIndex(s.pending, todo[0]);
        s.(poller := if i < |s.pending| then Waiting(s.pending[i], todo[1..]) else Round(todo[1..]))
    case Reply(reply) => AfterReply(s, reply)
    case Deliver => s.(delivered := s.delivered + s.completed, completed := [])
  }

  const EMPTY := State([], [], [], Idle, {}, [])

  ghost predicate Run(tr: seq<State>, es: seq<Step>) {
    && |tr| == |es| + 1
    && tr[0] == EMPTY
    && (forall i {:trigger Enabled(tr[i], es[i])} ::
          0 <= i < |es| ==> Enabled(tr[i], es[i]) && tr[i + 1] == After(tr[i], es[i]))
  }

  // --------------------------------------------------------------- invariant

  /** Every id ever tracked, with its multiplicity over the three places. */
  function Places(s: State): multiset<TaskId> {
    multiset(InfoIds(s.pending)) + multiset(DoneIds(s.completed)) + multiset(DoneIds(s.delivered))
  }

  ghost predicate Inv(s: State) {
    && Places(s) == multiset(s.tracked)
    && s.delivered + s.completed == s.completions
    && (s.poller.Waiting? ==> s.poller.info in s.pending)
  }

  lemma InfoIndexIds(p: seq<Info>, id: TaskId)
    ensures Tracks(p, id) <==> id in multiset(InfoIds(p))
  {
    if Tracks(p, id) {
      assert InfoIds(p)[InfoIndex(p, id)] == id;
    }
    assert forall i :: 0 <= i < |p| ==> InfoIds(p)[i] == p[i].taskId;
  }

  lemma WithoutAt<T>(s: seq<T>, i: nat)
    requires i < |s|
    ensures multiset(s) == multiset(s[..i] + s[i + 1..]) + multiset{s[i]}
    ensures forall x :: x in s[..i] + s[i + 1..] ==> x in s
  {
    assert s == s[..i] + [s[i]] + s[i + 1..];
  }

  lemma IdsWithoutAt(p: seq<Info>, i: nat)
    requires i < |p|
    ensures InfoIds(p[..i] + p[i + 1..]) == InfoIds(p)[..i] + InfoIds(p)[i + 1..]
  {
  }

  lemma IdsAfterRemoval(p: seq<Info>, i: nat)
    requires i < |p|
    ensures multiset(InfoIds(p)) == multiset(InfoIds(p[..i] + p[i + 1..])) + multiset{p[i].taskId}
  {
    WithoutAt(InfoIds(p), i);
    IdsWithoutAt(p, i);
  }

  lemma UntrackedIds(p: seq<Info>, id: TaskId)
    requires Tracks(p, id)
    ensures multiset(InfoIds(p)) == multiset(InfoIds(Untracked(p, id))) + multiset{id}
    ensures forall x :: x in Untracked(p, id) ==> x in p
  {
    IdsAfterRemoval(p, InfoIndex(p, id));
    WithoutAt(p, InfoIndex(p, id));
  }

  lemma TrackKeeps(s: State, info: Info)
    requires Inv(s) && info.taskId !in s.tracked
    ensures Inv(After(s, Track(info)))
  {
    var s' := After(s, Track(info));
    InfoIndexIds(s.pending, info.taskId);
    assert info.taskId !in Places(s);
    assert InfoIds(s'.pending) == InfoIds(s.pending) + [info.taskId];
    assert multiset(s'.tracked) == multiset(s.tracked) + multiset{info.taskId};
  }

  lemma NextKeeps(s: State)
    requires Inv(s) && s.poller.Round?
    ensures Inv(After(s, Next))
  {
  }

  lemma InfoMember(p: seq<Info>, info: Info)
    requires info in p
    ensures Tracks(p, info.taskId)
  {
  }

  /** The task of a completing reply moves from the pending to the completed ones. */
  lemma PlacesMove(s: State, s': State, info: Info, done: Done)
    requires Places(s) == multiset(s.tracked) && info in s.pending && done.info == info
    requires s'.pending == Untracked(s.pending, info.taskId) && s'.completed == s.completed + [done]
    requires s'.delivered == s.delivered && s'.tracked == s.tracked
    ensures Tracks(s.pending, info.taskId) && Places(s') == multiset(s'.tracked)
  {
    InfoMember(s.pending, info);
    UntrackedIds(s.pending, info.taskId);
    assert DoneIds(s'.completed) == DoneIds(s.completed) + [info.taskId];
  }

  lemma ReplyKeeps(s: State, reply: PollReply)
    requires Inv(s) && s.poller.Waiting?
    ensures Inv(After(s, Reply(reply)))
    ensures Completes(reply) ==> After(s, Reply(reply)).poller.Round?
  {
    if Completes(reply) {
      PlacesMove(s, After(s, Reply(reply)), s.poller.info, Done(s.poller.info, reply.task));
      assert s.delivered + (s.completed + [Done(s.poller.info, reply.task)])
          == (s.delivered + s.completed) + [Done(s.poller.info, reply.task)];
    }
  }

  lemma DeliverKeeps(s: State)
    requires Inv(s)
    ensures Inv(After(s, Deliver))
  {
    var s' := After(s, Deliver);
    assert DoneIds(s'.delivered) == DoneIds(s.delivered) + DoneIds(s.completed);
    assert DoneIds(s'.completed) == [];
    assert s'.delivered + [] == s.delivered + s.completed;
  }

  lemma StepKeeps(s: State, e: Step)
    requires Inv(s) && Enabled(s, e)
    ensures Inv(After(s, e))
  {
    match e
    case Track(info) => TrackKeeps(s, info);
    case BeginRound =>
    case Next => NextKeeps(s);
    case Reply(reply) => ReplyKeeps(s, reply);
    case Deliver => DeliverKeeps(s);
  }

  lemma {:induction false} RunInv(tr: seq<State>, es: seq<Step>, n: nat)
    requires Run(tr, es) && n < |tr|
    ensures Inv(tr[n])
    decreases n
  {
    if n > 0 {
      RunInv(tr, es, n - 1);
      StepKeeps(tr[n - 1], es[n - 1]);
    }
  }

  // ------------------------------------------------------------ main results

  /** Over every interleaving of tracking, polling and delivery, with rounds cut
      short at any point, an id that was tracked is in exactly one of pending,
      completed and delivered, and no other id is in any. */
  lemma Conservation(tr: seq<State>, es: seq<Step>, n: nat, id: TaskId)
    requires Run(tr, es) && n < |tr|
    ensures multiset(InfoIds(tr[n].pending))[id] + multiset(DoneIds(tr[n].completed))[id]
            + multiset(DoneIds(tr[n].delivered))[id] == if id in tr[n].tracked then 1 else 0
  {
    RunInv(tr, es, n);
    assert Places(tr[n])[id] == multiset(tr[n].tracked)[id];
  }

  lemma StepGrows(s: State, e: Step)
    requires Enabled(s, e)
    ensures s.delivered <= After(s, e).delivered && s.completions <= After(s, e).completions
    ensures s.tracked <= After(s, e).tracked
  {
  }

  lemma {:induction false} RunGrows(tr: seq<State>, es: seq<Step>, m: nat, n: nat)
    requires Run(tr, es) && m <= n < |tr|
    ensures tr[m].delivered <= tr[n].delivered && tr[m].completions <= tr[n].completions
    ensures tr[m].tracked <= tr[n].tracked
    decreases n
  {
    if m < n {
      RunGrows(tr, es, m, n - 1);
      StepGrows(tr[n - 1], es[n - 1]);
    }
  }

  /** Delivery follows completion order: what has been delivered at any time is a
      prefix of the completions, and only grows. */
  lemma DeliveryFollowsCompletion(tr: seq<State>, es: seq<Step>, m: nat, n: nat)
    requires Run(tr, es) && m <= n < |tr|
    ensures tr[m].delivered <= tr[n].delivered <= tr[n].completions
    ensures tr[n].completions == tr[n].delivered + tr[n].completed
  {
    RunInv(tr, es, n);
    RunGrows(tr, es, m, n);
  }

  lemma DeliveredDistinct(s: State, i: nat, j: nat)
    requires Inv(s) && i < j < |s.delivered|
    ensures s.delivered[i].info.taskId != s.delivered[j].info.taskId
  {
    var ids := DoneIds(s.delivered);
    assert Places(s)[ids[i]] == multiset(s.tracked)[ids[i]];
    assert ids == ids[..j] + [ids[j]] + ids[j + 1..];
    assert ids[..j][i] == ids[i];
    assert multiset(ids) == multiset(ids[..j]) + multiset{ids[j]} + multiset(ids[j + 1..]);
    assert ids[i] in multiset(ids[..j]);
  }

  /** Nothing is delivered twice. */
  lemma DeliveredAtMostOnce(tr: seq<State>, es: seq<Step>, n: nat, i: nat, j: nat)
    requires Run(tr, es) && n < |tr| && i < j < |tr[n].delivered|
    ensures tr[n].delivered[i].info.taskId != tr[n].delivered[j].info.taskId
  {
    RunInv(tr, es, n);
    DeliveredDistinct(tr[n], i, j);
  }

  // --------------------------------------------------- one round, undisturbed

  /** A poll round over `todo` with no step of anything else in between. */
  function RoundFrom(p: seq<Info>, c: seq<Done>, todo: seq<TaskId>, replies: TaskId -> PollReply)
    : (seq<Info>, seq<Done>)
    decreases |todo|
  {
    if todo == [] then (p, c)
    else
      var i := InfoIndex(p, todo[0]);
      if i == |p| then RoundFrom(p, c, todo[1..], replies)
      else
        var reply := replies(todo[0]);
        if reply.Broken? then (p, c)
        else if Completes(reply) then
          RoundFrom(p[..i] + p[i + 1..], c + [Done(p[i], reply.task)], todo[1..], replies)
        else RoundFrom(p, c, todo[1..], replies)
  }

  function Remaining(p: seq<Info>, replies: TaskId -> PollReply): seq<Info> {
    if p == [] then []
    else (if Completes(replies(p[0].taskId)) then [] else [p[0]]) + Remaining(p[1..], replies)
  }

  function Finished(p: seq<Info>, replies: TaskId -> PollReply): seq<Done> {
    if p == [] then []
    else
      var reply := replies(p[0].taskId);
      (if Completes(reply) then [Done(p[0], reply.task)] else []) + Finished(p[1..], replies)
  }

  ghost predicate DistinctInfos(p: seq<Info>) {
    forall i, j :: 0 <= i < j < |p| ==> p[i].taskId != p[j].taskId
  }

  lemma IndexInMiddle(kept: seq<Info>, p: seq<Info>)
    requires p != [] && DistinctInfos(kept + p)
    ensures InfoIndex(kept + p, p[0].taskId) == |kept| && (kept + p)[|kept|] == p[0]
  {
    assert (kept + p)[|kept|] == p[0];
    var i := InfoIndex(kept + p, p[0].taskId);
    assert i <= |kept|;
  }

  lemma DropMiddle(kept: seq<Info>, p: seq<Info>)
    requires p != []
    ensures (kept + p)[..|kept|] + (kept + p)[|kept| + 1..] == kept + p[1..]
  {
    assert (kept + p)[..|kept|] == kept;
    assert (kept + p)[|kept| + 1..] == p[1..];
  }

  lemma StillDistinct(kept: seq<Info>, p: seq<Info>)
    requires p != [] && DistinctInfos(kept + p)
    ensures DistinctInfos(kept + p[1..])
  {
    var q, r := kept + p, kept + p[1..];
    forall i, j | 0 <= i < j < |r| ensures r[i].taskId != r[j].taskId {
      assert r[i] == q[if i < |kept| then i else i + 1];
      assert r[j] == q[if j < |kept| then j else j + 1];
    }
  }

  /** The round at the first id of its list. */
  lemma RoundStep(kept: seq<Info>, p: seq<Info>, c: seq<Done>, replies: TaskId -> PollReply)
    requires p != [] && DistinctInfos(kept + p) && !replies(p[0].taskId).Broken?
    ensures var reply := replies(p[0].taskId);
            RoundFrom(kept + p, c, InfoIds(p), replies) ==
              if Completes(reply) then RoundFrom(kept + p[1..], c + [Done(p[0], reply.task)], InfoIds(p[1..]), replies)
              else RoundFrom(kept + p, c, InfoIds(p[1..]), replies)
  {
    IndexInMiddle(kept, p);
    DropMiddle(kept, p);
    assert InfoIds(p)[1..] == InfoIds(p[1..]) && InfoIds(p)[0] == p[0].taskId;
  }

  lemma RoundParts(p: seq<Info>, replies: TaskId -> PollReply)
    requires p != []
    ensures var reply := replies(p[0].taskId);
            if Completes(reply) then
              Remaining(p, replies) == Remaining(p[1..], replies)
              && Finished(p, replies) == [Done(p[0], reply.task)] + Finished(p[1..], replies)
            else
              Remaining(p, replies) == [p[0]] + Remaining(p[1..], replies)
              && Finished(p, replies) == Finished(p[1..], replies)
  {
  }

  lemma Regroup<T>(a: seq<T>, b: seq<T>, c: seq<T>)
    ensures (a + b) + c == a + (b + c)
  {
  }

  /** An undisturbed round without unexpected exceptions moves exactly the tasks
      with a terminal reply, in the order they were tracked, and keeps the rest
      in order. */
  lemma {:induction false} UndisturbedRound(kept: seq<Info>, p: seq<Info>, c: seq<Done>, replies: TaskId -> PollReply)
    requires DistinctInfos(kept + p)
    requires forall i :: 0 <= i < |p| ==> !replies(p[i].taskId).Broken?
    ensures RoundFrom(kept + p, c, InfoIds(p), replies) == (kept + Remaining(p, replies), c + Finished(p, replies))
    decreases |p|
  {
    if p == [] {
      assert kept + p == kept && c + [] == c;
    } else {
      var reply := replies(p[0].taskId);
      RoundStep(kept, p, c, replies);
      RoundParts(p, replies);
      if Completes(reply) {
        var done := [Done(p[0], reply.task)];
        StillDistinct(kept, p);
        UndisturbedRound(kept, p[1..], c + done, replies);
        Regroup(c, done, Finished(p[1..], replies));
      } else {
        var head := [p[0]];
        assert p == head + p[1..];
        Regroup(kept, head, p[1..]);
        UndisturbedRound(kept + head, p[1..], c, replies);
        Regroup(kept, head, Remaining(p[1..], replies));
      }
    }
  }
}
