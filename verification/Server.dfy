/** A2AServer: the message endpoint, split at the child session, and the task
    status endpoint. */
module Server {
  import opened Options
  import opened Json
  import opened JsonExact
  import opened Authentication
  import opened Pending
  import opened Registry
  import opened Receiver

  /** What handle_send_message has come to at its reply, or at the point where it
      awaits the child session. */
  datatype Started =
    | AuthRefused(verdict: Verdict)
    | HttpError(status: int)
    | Replied(task: Task)
    | Suspended(flight: Flight)

  /** The reply to a routed request: a stored task is waiting for the user, and a
      child session's request replies later. */
  function ReplyTo(route: Route, body: Body): Started
    requires !route.Refuse? ==> body.Body?
  {
    match route
    case Refuse(status) => HttpError(status)
    case ToChild(_, _) => Suspended(FlightOf(route, body))
    case _ => Replied(Task(InputRequired, body.message, [], None, None))
  }

  class A2AServer {
    const registry: A2ARegistry
    const authenticator: RequestAuthenticator
    /** Confidence evaluation is configured and a provider is mounted. */
    const evaluates: bool
    /** Reading a request's bytes as JSON and checking its shape. */
    const decode: Bytes -> Body

    constructor (registry: A2ARegistry, authenticator: RequestAuthenticator, evaluates: bool, decode: Bytes -> Body)
      ensures this.registry == registry && this.authenticator == authenticator
      ensures this.evaluates == evaluates && this.decode == decode
    {
      this.registry, this.authenticator, this.evaluates, this.decode := registry, authenticator, evaluates, decode;
    }

    /** Where a request of this peer goes, as routing is specified. */
    ghost function Routed(peer: Option<Peer>, body: Body): Route
      reads registry, registry.contactStore, registry.pendingQueue
    {
      RouteOf(authenticator.config.required, registry.Snapshot().contacts, peer, body)
    }

    /** The task of an unknown sender waits for a decision on the contact. */
    method AskApproval(url: Str, body: Body, id: TaskId, now: Str) returns (task: Task)
      requires registry.Valid() && body.Body? && Printable(body.message)
      modifies registry`tasks, registry.pendingQueue
      ensures registry.Valid()
      ensures registry.Snapshot() == AfterStart(old(registry.Snapshot()), ToApproval(url), body, id, now)
      ensures Replied(task) == ReplyTo(ToApproval(url), body)
    {
      registry.CreateTask(id, body.message);
      if registry.pendingQueue != null {
        registry.pendingQueue.AddApproval(id, url, body.senderName, body.message, now);
      }
      registry.UpdateTask(id, InputRequired, None, None, None);
      task := registry.tasks[id];
    }

    /** Mode A: the task waits for the user's answer. */
    method AskUser(url: Str, body: Body, id: TaskId, now: Str) returns (task: Task)
      requires registry.Valid() && body.Body? && Printable(body.message)
      modifies registry`tasks, registry.pendingQueue
      ensures registry.Valid()
      ensures registry.Snapshot() == AfterStart(old(registry.Snapshot()), ToUser(url), body, id, now)
      ensures Replied(task) == ReplyTo(ToUser(url), body)
    {
      registry.CreateTask(id, body.message);
      registry.UpdateTask(id, InputRequired, None, None, None);
      if registry.pendingQueue != null {
        registry.pendingQueue.AddMessage(id, url, body.senderName, body.message, now, false);
      }
      task := registry.tasks[id];
    }

    /** Mode C, up to the await of the child session. */
    method StartChild(url: Str, tier: Str, body: Body, id: TaskId, now: Str) returns (flight: Flight)
      requires registry.Valid() && body.Body?
      modifies registry`tasks
      ensures registry.Valid()
      ensures registry.Snapshot() == AfterStart(old(registry.Snapshot()), ToChild(url, tier), body, id, now)
      ensures Suspended(flight) == ReplyTo(ToChild(url, tier), body)
    {
      registry.CreateTask(id, body.message);
      registry.UpdateTask(id, Working, None, None, None);
      flight := Flight(url, body.senderName, body.message, tier);
    }

    /** An authenticated or anonymous request, to its reply or to the child session. */
    method Dispatch(peer: Option<Peer>, body: Body, id: TaskId, now: Str) returns (r: Started)
      requires registry.Valid()
      requires body.Body? ==> Printable(body.message)
      modifies registry`tasks, registry.pendingQueue
      ensures registry.Valid()
      ensures registry.Snapshot() == AfterStart(old(registry.Snapshot()), old(Routed(peer, body)), body, id, now)
      ensures r == ReplyTo(old(Routed(peer, body)), body)
    {
      if body.Malformed? {
        return HttpError(body.status);
      }
      var senderUrl := body.claimedUrl;
      if peer.Some? {
        if body.claimedUrl != [] && body.claimedUrl != peer.value.senderUrl {
          return HttpError(403);
        }
        senderUrl := peer.value.senderUrl;
      }
      var tier: Str;
      if registry.contactStore != null {
        if senderUrl == [] {
          return HttpError(400);
        }
        var contact := registry.contactStore.GetContact(senderUrl);
        if !(peer.Some? || !authenticator.config.required) || contact.None? {
          var task := AskApproval(senderUrl, body, id, now);
          return Replied(task);
        }
        tier := contact.value.tier;
      } else {
        if peer.None? && authenticator.config.required {
          return HttpError(503);
        }
        tier := if !authenticator.config.required then TRUSTED else KNOWN;
      }
      if tier == KNOWN {
        var task := AskUser(senderUrl, body, id, now);
        return Replied(task);
      }
      var flight := StartChild(senderUrl, tier, body, id, now);
      return Suspended(flight);
    }

    /** Stores and reply after a request of this peer met the stores `st`. */
    ghost predicate Handled(st: Stores, peer: Option<Peer>, body: Body, id: TaskId, now: Str, r: Started)
      reads registry, registry.contactStore, registry.pendingQueue
    {
      var route := RouteOf(authenticator.config.required, st.contacts, peer, body);
      registry.Snapshot() == AfterStart(st, route, body, id, now) && r == ReplyTo(route, body)
    }

    /** The request from authentication to its reply, or to the child session. */
    method BeginSend(request: Request, clock: int, id: TaskId, now: Str) returns (r: Started)
      requires registry.Valid()
      requires decode(request.body).Body? ==> Printable(decode(request.body).message)
      modifies authenticator, registry`tasks, registry.pendingQueue
      ensures registry.Valid()
      ensures authenticator.seenNonces ==
              CacheAfter(authenticator.config, authenticator.crypto, old(authenticator.seenNonces), request, clock)
      ensures match Decide(authenticator.config, authenticator.crypto, old(authenticator.seenNonces), request, clock)
              case Anonymous => Handled(old(registry.Snapshot()), None, decode(request.body), id, now, r)
              case Accepted(peer) => Handled(old(registry.Snapshot()), Some(peer), decode(request.body), id, now, r)
              case v => registry.Snapshot() == old(registry.Snapshot()) && r == AuthRefused(v)
    {
      var verdict := authenticator.Verify(request, clock);
      match verdict
      case Anonymous => r := Dispatch(None, decode(request.body), id, now);
      case Accepted(peer) => r := Dispatch(Some(peer), decode(request.body), id, now);
      case _ => r := AuthRefused(verdict);
    }

    /** The request from the end of the child session and evaluation to its reply. */
    method FinishSend(id: TaskId, flight: Flight, outcome: ChildOutcome, now: Str) returns (task: Option<Task>)
      requires registry.Valid() && Printable(flight.message)
      modifies registry`tasks, registry.pendingQueue
      ensures registry.Valid()
      ensures registry.Snapshot() == AfterFinish(old(registry.Snapshot()), id, flight, outcome, evaluates, now)
      ensures task == if id in registry.tasks then Some(registry.tasks[id]) else None
    {
      if !outcome.Answered? {
        registry.UpdateTask(id, Failed, None, Some(FailureText(outcome)), None);
      } else {
        var shouldEvaluate := flight.tier == TRUSTED && evaluates;
        if shouldEvaluate && !outcome.sufficient {
          registry.UpdateTask(id, InputRequired, None, None, None);
          if registry.pendingQueue != null {
            registry.pendingQueue.AddMessage(id, flight.senderUrl, flight.senderName, flight.message, now, true);
          }
        } else {
          registry.UpdateTask(id, Completed, Some([outcome.text]), None, Some(Autonomous));
        }
      }
      task := registry.GetTask(id);
    }

    /** GET /a2a/v1/tasks/{id}; None is the 404. */
    method HandleGetTask(id: TaskId) returns (task: Option<Task>)
      ensures task == if id in registry.tasks then Some(registry.tasks[id]) else None
    {
      task := registry.GetTask(id);
    }
  }
}
