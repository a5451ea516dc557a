/** A2ARegistry: the tasks of this process and the stores attached to it. */
module Registry {
  import opened Options
  import opened Json
  import opened Contacts
  import opened Pending

  datatype TaskStatus = Submitted | Working | InputRequired | Completed | Failed | Rejected

  datatype Attribution = Autonomous | UserResponse | EscalatedUserResponse | DismissedByUser

  /** A task; every artifact the code builds has one text part, kept as its text. */
  datatype Task = Task(
    status: TaskStatus, history: Value, artifacts: seq<Str>, error: Option<Str>, attribution: Option<Attribution>)

  type Tasks = map<TaskId, Task>

  predicate Terminal(s: TaskStatus) { s == Completed || s == Failed || s == Rejected }

  function Created(tasks: Tasks, id: TaskId, message: Value): Tasks {
    tasks[id := Task(Submitted, message, [], None, None)]
  }

  function Kept<T>(old_: Option<T>, new_: Option<T>): Option<T> { if new_.Some? then new_ else old_ }

  /** update_task: unknown ids are ignored, and an argument left out keeps the
      old value. */
  function Updated(tasks: Tasks, id: TaskId, status: TaskStatus, artifacts: Option<seq<Str>>,
                   error: Option<Str>, attribution: Option<Attribution>): Tasks
  {
    if id !in tasks then tasks
    else
      var t := tasks[id];
      tasks[id := Task(status, t.history, if artifacts.Some? then artifacts.value else t.artifacts,
                       Kept(t.error, error), Kept(t.attribution, attribution))]
  }

  datatype Queues = Queues(messages: seq<Entry>, approvals: seq<Entry>)

  /** What the registry and its stores hold at one moment; a store that is not
      attached is None. */
  datatype Stores = Stores(
    tasks: Tasks, deferred: set<TaskId>, queue: Option<Queues>, contacts: Option<seq<Contact>>)

  class A2ARegistry {
    var tasks: Tasks
    var deferredIds: set<TaskId>
    const contactStore: ContactStore?
    const pendingQueue: PendingQueue?

    constructor (contactStore: ContactStore?, pendingQueue: PendingQueue?)
      ensures this.contactStore == contactStore && this.pendingQueue == pendingQueue
      ensures tasks == map[] && deferredIds == {}
    {
      this.contactStore, this.pendingQueue := contactStore, pendingQueue;
      tasks, deferredIds := map[], {};
    }

    ghost predicate Valid()
      reads this, pendingQueue, contactStore
    {
      && (pendingQueue != null ==> pendingQueue.Valid())
      && (contactStore != null ==> contactStore.Valid())
    }

    function Snapshot(): Stores
      reads this, contactStore, pendingQueue
    {
      Stores(tasks, deferredIds,
             if pendingQueue != null then Some(Queues(pendingQueue.messages, pendingQueue.approvals)) else None,
             if contactStore != null then Some(contactStore.contacts) else None)
    }

    /** `id` is the fresh uuid4. */
    method CreateTask(id: TaskId, message: Value)
      modifies this`tasks
      ensures tasks == Created(old(tasks), id, message)
    {
      tasks := tasks[id := Task(Submitted, message, [], None, None)];
    }

    method UpdateTask(id: TaskId, status: TaskStatus, artifacts: Option<seq<Str>>, error: Option<Str>,
                      attribution: Option<Attribution>)
      modifies this`tasks
      ensures tasks == Updated(old(tasks), id, status, artifacts, error, attribution)
    {
      if id !in tasks {
        return;
      }
      var task := tasks[id].(status := status);
      if artifacts.Some? {
        task := task.(artifacts := artifacts.value);
      }
      if error.Some? {
        task := task.(error := error);
      }
      if attribution.Some? {
        task := task.(attribution := attribution);
      }
      tasks := tasks[id := task];
    }

    method GetTask(id: TaskId) returns (task: Option<Task>)
      ensures task == if id in tasks then Some(tasks[id]) else None
    {
      task := if id in tasks then Some(tasks[id]) else None;
    }
  }
}
