/** What the poller's rounds ask: the steps of the machine against the ids that were
    pending when the round began. */
module Rounds {
  import opened Options
  import opened Pending
  import opened Registry
  import opened Sender

  ghost predicate StepAt(ss: seq<State>, os: seq<Option<Step>>, k: nat)
    requires k < |os| < |ss|
  {
    if os[k].None? then ss[k + 1] == ss[k]
    else Enabled(ss[k], os[k].value) && ss[k + 1] == After(ss[k], os[k].value)
  }

  /** States with the sender's steps between them; None is a step of someone else. */
  ghost predicate History(ss: seq<State>, os: seq<Option<Step>>) {
    && |ss| == |os| + 1
    && (forall k :: 0 <= k < |os| ==> StepAt(ss, os, k))
    && (forall k {:trigger Inv(ss[k])} :: 0 <= k < |ss| ==> Inv(ss[k]))
  }

  lemma RunIsHistory(tr: seq<State>, es: seq<Step>, os: seq<Option<Step>>)
    requires Run(tr, es) && |os| == |es| && forall k :: 0 <= k < |os| ==> os[k] == Some(es[k])
    ensures History(tr, os)
  {
    forall k | 0 <= k < |tr| ensures Inv(tr[k]) {
      RunInv(tr, es, k);
    }
    forall k | 0 <= k < |os| ensures StepAt(tr, os, k) {
      assert Enabled(tr[k], es[k]);
    }
  }

  predicate Asks(s: State, id: TaskId) { s.poller.Waiting? && s.poller.info.taskId == id }

  // ------------------------------------------------- with anything interleaved

  /** The id is pending and still ahead in the round. */
  predicate IsAhead(s: State, id: TaskId) {
    Tracks(s.pending, id) && !s.poller.Idle? && id in s.poller.todo
  }

  lemma IndexKept(p: seq<Info>, q: seq<Info>, id: TaskId)
    requires Tracks(p, id) && forall x :: x in p && x.taskId == id ==> x in q
    ensures Tracks(q, id)
  {
    assert p[InfoIndex(p, id)] in q;
  }

  lemma TrackedKeeps(p: seq<Info>, info: Info, id: TaskId)
    requires Tracks(p, id)
    ensures Tracks(Tracked(p, info), id)
  {
    var i, j := InfoIndex(p, id), InfoIndex(p, info.taskId);
    assert Tracked(p, info)[i].taskId == id;
  }

  lemma UntrackedKeeps(p: seq<Info>, other: TaskId, id: TaskId)
    requires Tracks(p, id) && other != id
    ensures Tracks(Untracked(p, other), id)
  {
    var i, j, q := InfoIndex(p, id), InfoIndex(p, other), Untracked(p, other);
    assert j < |p| ==> i != j;
    assert j < |p| && i < j ==> q[i] == p[i];
    assert j < |p| && j < i ==> q[i - 1] == p[i];
  }

  /** Until it is asked about, an id ahead in the round stays ahead, unless an
      unexpected exception ends the round. */
  lemma AheadStep(s: State, e: Step, id: TaskId)
    requires Inv(s) && Enabled(s, e) && IsAhead(s, id) && !Asks(s, id)
    ensures Asks(After(s, e), id) || IsAhead(After(s, e), id) || e == Reply(Broken)
  {
    match e
    case Track(info) => TrackedKeeps(s.pending, info, id);
    case Reply(reply) =>
      InfoMember(s.pending, s.poller.info);
      if Completes(reply) {
        UntrackedKeeps(s.pending, s.poller.info.taskId, id);
      }
    case _ =>
  }

  ghost predicate AskedIn(ss: seq<State>, lo: nat, hi: nat, id: TaskId)
    requires hi < |ss|
  {
    exists k :: lo < k <= hi && Asks(ss[k], id)
  }

  /** The round that began at `i` is still on at `n`. */
  ghost predicate SameRound(ss: seq<State>, i: nat, n: nat)
    requires n < |ss|
  {
    forall k :: i < k <= n ==> !ss[k].poller.Idle?
  }

  lemma BeginsAhead(s: State, id: TaskId)
    requires s.poller.Idle? && id in InfoIds(s.pending)
    ensures IsAhead(After(s, BeginRound), id)
  {
    InfoIndexIds(s.pending, id);
  }

  /** The id has been asked about in the round, or is still ahead. */
  ghost predicate Due(ss: seq<State>, i: nat, n: nat, id: TaskId)
    requires n < |ss|
  {
    AskedIn(ss, i, n, id) || IsAhead(ss[n], id)
  }

  lemma DueNext(ss: seq<State>, os: seq<Option<Step>>, i: nat, n: nat, id: TaskId)
    requires History(ss, os) && i < n < |os| && Due(ss, i, n, id) && !ss[n + 1].poller.Idle?
    ensures Due(ss, i, n + 1, id)
  {
    if AskedIn(ss, i, n, id) {
      var k :| i < k <= n && Asks(ss[k], id);
      assert AskedIn(ss, i, n + 1, id);
    } else {
      AheadNext(ss, os, n, id);
    }
  }

  lemma DueFirst(ss: seq<State>, os: seq<Option<Step>>, i: nat, id: TaskId)
    requires History(ss, os) && i < |os| && os[i] == Some(BeginRound) && id in InfoIds(ss[i].pending)
    ensures Due(ss, i, i + 1, id)
  {
    assert StepAt(ss, os, i);
    BeginsAhead(ss[i], id);
  }

  lemma {:induction false} AheadOn(ss: seq<State>, os: seq<Option<Step>>, i: nat, n: nat, id: TaskId)
    requires History(ss, os) && i < n < |ss| && os[i] == Some(BeginRound) && SameRound(ss, i, n)
    requires id in InfoIds(ss[i].pending)
    ensures Due(ss, i, n, id)
    decreases n
  {
    if n == i + 1 {
      DueFirst(ss, os, i, id);
    } else {
      AheadOn(ss, os, i, n - 1, id);
      DueNext(ss, os, i, n - 1, id);
    }
  }

  lemma AheadNext(ss: seq<State>, os: seq<Option<Step>>, n: nat, id: TaskId)
    requires History(ss, os) && n < |os| && IsAhead(ss[n], id) && !Asks(ss[n], id)
    ensures Asks(ss[n + 1], id) || IsAhead(ss[n + 1], id) || (os[n] == Some(Reply(Broken)) && ss[n + 1].poller.Idle?)
  {
    assert StepAt(ss, os, n);
    if os[n].Some? {
      assert Inv(ss[n]);
      AheadStep(ss[n], os[n].value, id);
    }
  }

  /** Each id that was pending when a round began is asked about before the poller is
      idle again, whatever is interleaved, unless an unexpected exception was the
      end of the round. */
  lemma EveryPendingIsAsked(ss: seq<State>, os: seq<Option<Step>>, i: nat, n: nat, id: TaskId)
    requires History(ss, os) && i < n < |os| && os[i] == Some(BeginRound)
    requires SameRound(ss, i, n) && ss[n + 1].poller.Idle?
    requires id in InfoIds(ss[i].pending)
    ensures AskedIn(ss, i, n, id) || os[n] == Some(Reply(Broken))
  {
    AheadOn(ss, os, i, n, id);
    if !AskedIn(ss, i, n, id) {
      AheadNext(ss, os, n, id);
    }
  }

  // --------------------------------------------------- with nothing interleaved

  /** What is left of the round: the id asked about, then those ahead. */
  function Rest(s: State): seq<TaskId>
    requires !s.poller.Idle?
  {
    if s.poller.Waiting? then [s.poller.info.taskId] + s.poller.todo else s.poller.todo
  }

  /** A step of the round itself; status requests are answered by `replies`. */
  predicate RoundStepWith(s: State, e: Step, replies: TaskId -> PollReply) {
    e.Next? || (e.Reply? && s.poller.Waiting? && e.reply == replies(s.poller.info.taskId))
  }

  /** The poller waits about the first pending entry of its id. */
  predicate WaitsRightly(s: State) {
    s.poller.Waiting? ==>
      var i := InfoIndex(s.pending, s.poller.info.taskId);
      i < |s.pending| && s.pending[i] == s.poller.info
  }

  lemma NextIsRound(s: State, replies: TaskId -> PollReply)
    requires s.poller.Round?
    ensures var s' := After(s, Next);
            && WaitsRightly(s')
            && RoundFrom(s.pending, s.completed, s.poller.todo, replies) ==
                 if s'.poller.Idle? then (s'.pending, s'.completed)
                 else RoundFrom(s'.pending, s'.completed, Rest(s'), replies)
  {
    var todo := s.poller.todo;
    assert todo != [] ==> [todo[0]] + todo[1..] == todo;
  }

  lemma ReplyIsRound(s: State, replies: TaskId -> PollReply)
    requires s.poller.Waiting? && WaitsRightly(s)
    ensures var s' := After(s, Reply(replies(s.poller.info.taskId)));
            && !s'.poller.Waiting?
            && RoundFrom(s.pending, s.completed, Rest(s), replies) ==
                 if s'.poller.Idle? then (s'.pending, s'.completed)
                 else RoundFrom(s'.pending, s'.completed, s'.poller.todo, replies)
  {
    var todo := s.poller.todo;
    assert Rest(s)[1..] == todo && Rest(s)[0] == s.poller.info.taskId;
  }

  /** The machine's step and the specified round agree. */
  lemma StepIsRound(s: State, e: Step, replies: TaskId -> PollReply)
    requires Enabled(s, e) && RoundStepWith(s, e, replies) && WaitsRightly(s)
    ensures var s' := After(s, e);
            && WaitsRightly(s')
            && RoundFrom(s.pending, s.completed, Rest(s), replies) ==
                 if s'.poller.Idle? then (s'.pending, s'.completed)
                 else RoundFrom(s'.pending, s'.completed, Rest(s'), replies)
  {
    if e.Next? {
      NextIsRound(s, replies);
    } else {
      ReplyIsRound(s, replies);
    }
  }

  /** States from the beginning of a round on, with nothing but its own steps. */
  ghost predicate OwnRound(ss: seq<State>, es: seq<Step>, replies: TaskId -> PollReply) {
    && |ss| == |es| + 1 >= 2
    && ss[0].poller.Idle? && es[0] == BeginRound && ss[1] == After(ss[0], BeginRound)
    && (forall k {:trigger es[k]} :: 1 <= k < |es| ==>
          Enabled(ss[k], es[k]) && RoundStepWith(ss[k], es[k], replies) && ss[k + 1] == After(ss[k], es[k]))
  }

  lemma {:induction false} OwnRoundOn(ss: seq<State>, es: seq<Step>, replies: TaskId -> PollReply, n: nat)
    requires OwnRound(ss, es, replies) && 1 <= n < |ss| && forall k :: 1 <= k < n ==> !ss[k].poller.Idle?
    ensures WaitsRightly(ss[n])
    ensures RoundFrom(ss[0].pending, ss[0].completed, InfoIds(ss[0].pending), replies) ==
            if ss[n].poller.Idle? then (ss[n].pending, ss[n].completed)
            else RoundFrom(ss[n].pending, ss[n].completed, Rest(ss[n]), replies)
    decreases n
  {
    if n > 1 {
      OwnRoundOn(ss, es, replies, n - 1);
      assert RoundStepWith(ss[n - 1], es[n - 1], replies);
      StepIsRound(ss[n - 1], es[n - 1], replies);
    }
  }

  lemma PendingDistinct(s: State)
    requires Inv(s)
    ensures DistinctInfos(s.pending)
  {
    var ids := InfoIds(s.pending);
    forall i, j | 0 <= i < j < |s.pending| ensures s.pending[i].taskId != s.pending[j].taskId {
      assert Places(s)[ids[i]] == multiset(s.tracked)[ids[i]];
      assert ids == ids[..j] + [ids[j]] + ids[j + 1..];
      assert ids[..j][i] == ids[i];
      assert multiset(ids) == multiset(ids[..j]) + multiset{ids[j]} + multiset(ids[j + 1..]);
      assert ids[i] in multiset(ids[..j]);
    }
  }

  /** A round of the machine that runs to its end by its own steps alone, and meets
      no unexpected exception: exactly the pending tasks whose reply is terminal have
      moved to the completed ones, in tracking order, each with its reply. */
  lemma OwnRoundResult(ss: seq<State>, es: seq<Step>, replies: TaskId -> PollReply, n: nat)
    requires OwnRound(ss, es, replies) && Inv(ss[0]) && 1 <= n < |ss|
    requires (forall k :: 1 <= k < n ==> !ss[k].poller.Idle?) && ss[n].poller.Idle?
    requires forall i :: 0 <= i < |ss[0].pending| ==> !replies(ss[0].pending[i].taskId).Broken?
    ensures ss[n].pending == Remaining(ss[0].pending, replies)
    ensures ss[n].completed == ss[0].completed + Finished(ss[0].pending, replies)
  {
    var p := ss[0].pending;
    OwnRoundOn(ss, es, replies, n);
    PendingDistinct(ss[0]);
    assert [] + p == p;
    UndisturbedRound([], p, ss[0].completed, replies);
    assert [] + Remaining(p, replies) == Remaining(p, replies);
  }

  // ---------------------------------------------------------- single steps, named

  predicate IsFinal(status: TaskStatus) { status in {Completed, Failed, Rejected} }

  /** A reply that shows a final status moves the task, with that reply, to the end of
      the completed ones; any other reply changes neither list. */
  lemma ReplyEffect(s: State, reply: PollReply)
    requires Inv(s) && s.poller.Waiting?
    ensures var s' := After(s, Reply(reply));
            if reply.Found? && IsFinal(reply.task.status) then
              && s'.completed == s.completed + [Done(s.poller.info, reply.task)]
              && !Tracks(s'.pending, s.poller.info.taskId)
              && forall id :: id != s.poller.info.taskId ==> (Tracks(s'.pending, id) <==> Tracks(s.pending, id))
            else s'.completed == s.completed && s'.pending == s.pending
  {
    if Completes(reply) {
      var info, s' := s.poller.info, After(s, Reply(reply));
      ReplyKeeps(s, reply);
      assert DoneIds(s'.completed)[|s.completed|] == info.taskId;
      assert Places(s')[info.taskId] == multiset(s'.tracked)[info.taskId];
      InfoIndexIds(s'.pending, info.taskId);
      forall id | id != info.taskId ensures Tracks(s'.pending, id) <==> Tracks(s.pending, id) {
        if Tracks(s.pending, id) {
          UntrackedKeeps(s.pending, info.taskId, id);
        }
        if Tracks(s'.pending, id) {
          InfoMember(s.pending, info);
          UntrackedIds(s.pending, info.taskId);
          InfoMember(s.pending, s'.pending[InfoIndex(s'.pending, id)]);
        }
      }
    }
  }

  /** Right after a drain everything completed so far has been delivered. */
  lemma DrainDelivers(s: State)
    requires Inv(s)
    ensures After(s, Deliver).delivered == After(s, Deliver).completions == s.completions
    ensures After(s, Deliver).completed == []
  {
    DeliverKeeps(s);
  }
}
