/** A2ATool: the user's operations on waiting items and contacts, and the
    sender's tracking, polling and blocking send. */
module Tool {
  import opened Options
  import opened Json
  import opened Pending
  import opened Registry
  import opened Receiver
  import opened Envelope
  import Responses
  import Sender

  /** How a send ended; NoTaskId hands the remote's reply on as it is. */
  datatype SendOutcome =
    | Returned(result: Task)
    | NoTaskId
    | Tracking
    | Raised

  /** Number of polls a blocking send makes when none ends it: one per second
      started within the timeout. */
  function Polls(timeout: real): nat {
    if timeout <= 0.0 then 0
    else if timeout.Floor as real == timeout then timeout.Floor
    else timeout.Floor + 1
  }

  /** The bound is the timeout rounded up. */
  lemma PollsIsCeiling(timeout: real)
    ensures Polls(timeout) as real >= timeout
    ensures Polls(timeout) > 0 ==> (Polls(timeout) - 1) as real < timeout
  {
  }

  /** A blocking send that still has `left` polls, or its end. */
  datatype Progress = Polling(left: nat) | Ended(outcome: SendOutcome)

  /** What one poll's reply makes of it. */
  function AfterPoll(left: nat, reply: Sender.PollReply): Progress
    requires left > 0
  {
    if Sender.Completes(reply) then Ended(Returned(reply.task))
    else if reply.Broken? then Ended(Raised)
    else Polling(left - 1)
  }

  /** The end of a blocking send whose next polls get the replies from `i` on, and
      how many of them it makes. */
  function Polled(left: nat, replies: nat -> Sender.PollReply, i: nat): (SendOutcome, nat) {
    if left == 0 then (Tracking, 0)
    else
      match AfterPoll(left, replies(i))
      case Ended(outcome) => (outcome, 1)
      case Polling(n) => var (outcome, polls) := Polled(n, replies, i + 1); (outcome, polls + 1)
  }

  predicate EndsSend(reply: Sender.PollReply) { Sender.Completes(reply) || reply.Broken? }

  /** The send ends at the first reply that is terminal or an unexpected exception,
      as that reply says, and goes over to tracking exactly when no reply is. */
  lemma {:induction false} PolledIsFirstEnding(left: nat, replies: nat -> Sender.PollReply, i: nat)
    ensures var (outcome, polls) := Polled(left, replies, i);
            && polls <= left
            && (forall j :: i <= j < i + polls - 1 ==> !EndsSend(replies(j)))
            && (outcome == Tracking <==> polls == left && (polls > 0 ==> !EndsSend(replies(i + polls - 1))))
            && (outcome != Tracking ==>
                  polls > 0 && EndsSend(replies(i + polls - 1))
                  && outcome == if replies(i + polls - 1).Broken? then Raised
                                else Returned(replies(i + polls - 1).task))
    decreases left
  {
    if left > 0 && !EndsSend(replies(i)) {
      PolledIsFirstEnding(left - 1, replies, i + 1);
    }
  }

  class A2ATool {
    const registry: A2ARegistry
    var pendingOutgoing: seq<Sender.Info>
    var completedOutgoing: seq<Sender.Done>

    constructor (registry: A2ARegistry)
      ensures this.registry == registry && pendingOutgoing == [] && completedOutgoing == []
    {
      this.registry := registry;
      pendingOutgoing, completedOutgoing := [], [];
    }

    // ------------------------------------------------------- user operations

    method CheckStores() returns (ok: bool)
      ensures ok == HasStores(registry.Snapshot())
    {
      ok := registry.contactStore != null && registry.pendingQueue != null;
    }

    /** `_find_pending_approval` */
    method FindPendingApproval(url: Str) returns (e: Option<Entry>)
      requires registry.pendingQueue != null
      ensures e == FirstFrom(PendingOf(registry.pendingQueue.approvals), url)
    {
      var pending := registry.pendingQueue.GetPendingApprovals();
      for i := 0 to |pending|
        invariant FirstFrom(pending, url) == FirstFrom(pending[i..], url)
      {
        if pending[i].senderUrl == url {
          return Some(pending[i]);
        }
        assert pending[i..][1..] == pending[i + 1..];
      }
      e := None;
    }

    method Approve(agent: Str, tier: Str, now: Str) returns (r: OpResult)
      requires registry.Valid()
      modifies registry`tasks, registry.contactStore, registry.pendingQueue
      ensures registry.Valid()
      ensures r == old(ApproveResult(registry.Snapshot(), agent))
      ensures registry.Snapshot() == old(AfterApprove(registry.Snapshot(), agent, tier, now))
    {
      var ok := CheckStores();
      if !ok {
        return StoresMissing;
      }
      if agent == [] {
        return ArgumentMissing;
      }
      var approval := FindPendingApproval(agent);
      if approval.None? {
        return NotFound;
      }
      var e := approval.value;
      registry.contactStore.AddContact(e.senderUrl, e.senderName, tier, now);
      registry.pendingQueue.UpdateApprovalStatus(e.taskId, Approved);
      registry.UpdateTask(e.taskId, Completed, Some([ApprovedText(e.senderName)]), None, None);
      r := Success;
    }

    method Block(agent: Str) returns (r: OpResult)
      requires registry.Valid()
      modifies registry`tasks, registry.pendingQueue
      ensures registry.Valid()
      ensures r == old(ApproveResult(registry.Snapshot(), agent))
      ensures registry.Snapshot() == old(AfterBlock(registry.Snapshot(), agent))
    {
      var ok := CheckStores();
      if !ok {
        return StoresMissing;
      }
      if agent == [] {
        return ArgumentMissing;
      }
      var approval := FindPendingApproval(agent);
      if approval.None? {
        return NotFound;
      }
      var e := approval.value;
      registry.pendingQueue.UpdateApprovalStatus(e.taskId, Blocked);
      registry.UpdateTask(e.taskId, Failed, None, Some(BlockedText(e.senderName)), None);
      r := Success;
    }

    method Trust(agent: Str, tier: Str) returns (r: OpResult)
      requires registry.Valid()
      modifies registry.contactStore
      ensures registry.Valid()
      ensures r == old(TrustResult(registry.Snapshot(), agent, tier))
      ensures registry.Snapshot() == old(AfterTrust(registry.Snapshot(), agent, tier))
    {
      var ok := CheckStores();
      if !ok {
        return StoresMissing;
      }
      if agent == [] || tier == [] {
        return ArgumentMissing;
      }
      var contact := registry.contactStore.GetContact(agent);
      if contact.None? {
        return NotFound;
      }
      registry.contactStore.UpdateTier(agent, tier);
      r := Success;
    }

    /** After the card of `url` has been fetched and gave `name`. */
    method AddContact(url: Str, name: Str, tier: Str, now: Str) returns (r: OpResult)
      requires registry.Valid()
      modifies registry.contactStore
      ensures registry.Valid()
      ensures r == old(AddContactResult(registry.Snapshot(), url))
      ensures registry.Snapshot() == old(AfterAddContact(registry.Snapshot(), url, name, tier, now))
    {
      if url == [] {
        return ArgumentMissing;
      }
      var ok := CheckStores();
      if !ok {
        return StoresMissing;
      }
      registry.contactStore.AddContact(url, name, tier, now);
      r := Success;
    }

    method Respond(id: TaskId, message: Str) returns (r: OpResult)
      requires registry.Valid()
      modifies registry`tasks, registry.pendingQueue
      ensures registry.Valid()
      ensures r == old(MessageResult(registry.Snapshot(), id, message != []))
      ensures registry.Snapshot() == old(AfterRespond(registry.Snapshot(), id, message))
    {
      var ok := CheckStores();
      if !ok {
        return StoresMissing;
      }
      if id == [] || message == [] {
        return ArgumentMissing;
      }
      var pending := registry.pendingQueue.GetMessage(id);
      if pending.None? {
        return NotFound;
      }
      var attribution := if pending.value.escalated == Some(true) then EscalatedUserResponse else UserResponse;
      registry.UpdateTask(id, Completed, Some([message]), None, Some(attribution));
      registry.pendingQueue.UpdateMessageStatus(id, Responded);
      r := Success;
    }

    method Defer(id: TaskId) returns (r: OpResult)
      requires registry.Valid()
      modifies registry`deferredIds, registry.pendingQueue
      ensures registry.Valid()
      ensures r == old(DeferResult(registry.Snapshot(), id))
      ensures registry.Snapshot() == old(AfterDefer(registry.Snapshot(), id))
    {
      if id == [] {
        return ArgumentMissing;
      }
      var ok := CheckStores();
      if !ok {
        return StoresMissing;
      }
      var pending := registry.pendingQueue.GetMessage(id);
      if pending.None? {
        return NotFound;
      }
      registry.pendingQueue.UpdateMessageStatus(id, Deferred);
      registry.deferredIds := registry.deferredIds + {id};
      r := Success;
    }

    method Dismiss(id: TaskId) returns (r: OpResult)
      requires registry.Valid()
      modifies registry`tasks, registry.pendingQueue
      ensures registry.Valid()
      ensures r == old(MessageResult(registry.Snapshot(), id, true))
      ensures registry.Snapshot() == old(AfterDismiss(registry.Snapshot(), id))
    {
      var ok := CheckStores();
      if !ok {
        return StoresMissing;
      }
      if id == [] {
        return ArgumentMissing;
      }
      var pending := registry.pendingQueue.GetMessage(id);
      if pending.None? {
        return NotFound;
      }
      registry.UpdateTask(id, Rejected, None, Some(Lit("Dismissed by user")), Some(DismissedByUser));
      registry.pendingQueue.UpdateMessageStatus(id, Dismissed);
      r := Success;
    }

    // ---------------------------------------------------------------- sending

    /** `_track_outgoing` */
    method TrackOutgoing(info: Sender.Info)
      modifies this`pendingOutgoing
      ensures pendingOutgoing == Sender.Tracked(old(pendingOutgoing), info)
    {
      var i := FindInfo(info.taskId);
      if i < |pendingOutgoing| {
        pendingOutgoing := pendingOutgoing[i := info];
      } else {
        pendingOutgoing := pendingOutgoing + [info];
      }
    }

    method FindInfo(id: TaskId) returns (i: nat)
      ensures i == Sender.InfoIndex(pendingOutgoing, id)
    {
      i := 0;
      while i < |pendingOutgoing|
        invariant i <= |pendingOutgoing|
        invariant Sender.InfoIndex(pendingOutgoing, id) == i + Sender.InfoIndex(pendingOutgoing[i..], id)
      {
        if pendingOutgoing[i].taskId == id {
          return;
        }
        i := i + 1;
      }
    }

    /** `_collect_completed` */
    method CollectCompleted() returns (completed: seq<Sender.Done>)
      modifies this`completedOutgoing
      ensures completed == old(completedOutgoing) && completedOutgoing == []
    {
      completed := completedOutgoing;
      completedOutgoing := [];
    }

    /** `_handle_outgoing_responses`: drains what has completed into the session,
        None for "continue". */
    method HandleOutgoingResponses() returns (text: Option<string>)
      modifies this`completedOutgoing
      ensures completedOutgoing == []
      ensures text == Responses.Injected(old(completedOutgoing))
    {
      var completed := CollectCompleted();
      if completed == [] {
        return None;
      }
      text := Some(Wrap(Responses.SOURCE, Responses.ResponsePayload(completed)));
    }

    /** A non-blocking send after its HTTP reply, which may name no task. */
    method SendNonBlocking(result: Option<Task>, info: Sender.Info) returns (r: SendOutcome)
      modifies this`pendingOutgoing
      ensures result.None? ==> r == NoTaskId
      ensures result.Some? ==> r == if Terminal(result.value.status) then Returned(result.value) else Tracking
      ensures pendingOutgoing ==
              if r == Tracking then Sender.Tracked(old(pendingOutgoing), info) else old(pendingOutgoing)
    {
      if result.None? {
        return NoTaskId;
      }
      if !Terminal(result.value.status) {
        TrackOutgoing(info);
        return Tracking;
      }
      r := Returned(result.value);
    }

    /** A blocking send after its HTTP reply, when the i-th poll gets `replies(i)`:
        it makes Polls(timeout) polls unless one ends it. */
    method SendBlocking(result: Option<Task>, info: Sender.Info, timeout: real, replies: nat -> Sender.PollReply)
      returns (r: SendOutcome, polls: nat)
      modifies this`pendingOutgoing
      ensures (r, polls) ==
              if result.None? then (NoTaskId, 0)
              else if Terminal(result.value.status) then (Returned(result.value), 0)
              else Polled(Polls(timeout), replies, 0)
      ensures pendingOutgoing ==
              if r == Tracking then Sender.Tracked(old(pendingOutgoing), info) else old(pendingOutgoing)
    {
      polls := 0;
      if result.None? {
        return NoTaskId, 0;
      }
      if Terminal(result.value.status) {
        return Returned(result.value), 0;
      }
      var pollInterval := 1.0;
      var elapsed := 0.0;
      while elapsed < timeout
        invariant elapsed == polls as real && polls <= Polls(timeout)
        invariant var (outcome, more) := Polled(Polls(timeout) - polls, replies, polls);
                  Polled(Polls(timeout), replies, 0) == (outcome, polls + more)
        decreases Polls(timeout) - polls
      {
        elapsed := elapsed + pollInterval;
        var reply := replies(polls);
        polls := polls + 1;
        if reply.Broken? {
          return Raised, polls;
        }
        if reply.Found? && Terminal(reply.task.status) {
          return Returned(reply.task), polls;
        }
      }
      TrackOutgoing(info);
      r := Tracking;
    }

    // ---------------------------------------------------------------- polling

    /** The snapshot of keys at the start of a round. */
    method SnapshotIds() returns (ids: seq<TaskId>)
      ensures ids == Sender.InfoIds(pendingOutgoing)
    {
      ids := [];
      for i := 0 to |pendingOutgoing|
        invariant ids == Sender.InfoIds(pendingOutgoing[..i])
      {
        ids := ids + [pendingOutgoing[i].taskId];
      }
    }

    /** What happens to a reply about `info`; false when the round is over because
        an exception left it. */
    method TakeReply(info: Sender.Info, reply: Sender.PollReply) returns (goOn: bool)
      modifies this`pendingOutgoing, this`completedOutgoing
      ensures forall s: Sender.State ::
                s.pending == old(pendingOutgoing) && s.completed == old(completedOutgoing)
                && s.poller.Waiting? && s.poller.info == info ==>
                var s' := Sender.AfterReply(s, reply);
                s'.pending == pendingOutgoing && s'.completed == completedOutgoing && (goOn <==> s'.poller.Round?)
    {
      if reply.Broken? {
        return false;
      }
      if reply.Found? && Terminal(reply.task.status) {
        completedOutgoing := completedOutgoing + [Sender.Done(info, reply.task)];
        var i := FindInfo(info.taskId);
        if i == |pendingOutgoing| {
          return false;
        }
        pendingOutgoing := pendingOutgoing[..i] + pendingOutgoing[i + 1..];
      }
      goOn := true;
    }

    /** The ids of one round of `_poll_outgoing`, when nothing else runs meanwhile:
        `replies` answers the status requests. */
    method PollRound(replies: TaskId -> Sender.PollReply)
      modifies this`pendingOutgoing, this`completedOutgoing
      ensures (pendingOutgoing, completedOutgoing) ==
              Sender.RoundFrom(old(pendingOutgoing), old(completedOutgoing),
                               Sender.InfoIds(old(pendingOutgoing)), replies)
    {
      var ids := SnapshotIds();
      ghost var end := Sender.RoundFrom(pendingOutgoing, completedOutgoing, ids, replies);
      var k := 0;
      while k < |ids|
        invariant k <= |ids|
        invariant end == Sender.RoundFrom(pendingOutgoing, completedOutgoing, ids[k..], replies)
      {
        var i := FindInfo(ids[k]);
        if i < |pendingOutgoing| {
          ghost var s := Sender.State(pendingOutgoing, completedOutgoing, [],
                                      Sender.Waiting(pendingOutgoing[i], ids[k + 1..]), {}, []);
          var goOn := TakeReply(pendingOutgoing[i], replies(ids[k]));
          assert Sender.AfterReply(s, replies(ids[k])).pending == pendingOutgoing;
          if !goOn {
            return;
          }
        }
        assert ids[k..][1..] == ids[k + 1..];
        k := k + 1;
      }
    }
  }
}
