/** The in-memory tables of one database and the registry that hands out one
    store per database name, created on first use. Times are integer
    milliseconds. */
module Storage {
  import opened Wrappers
  import opened Json
  import opened Table

  /** A workflow run. `status` is free text: updates may write any string. */
  datatype Run = Run(
    runId: string,
    status: string,
    deploymentId: string,
    workflowName: Option<string>,
    input: seq<Value>,
    output: Option<Value>,
    error: Option<Value>,
    executionContext: Value,
    startedAt: Option<int>,
    completedAt: Option<int>,
    createdAt: int,
    updatedAt: int)

  /** A step of a run, stored under the key `runId-stepId`. */
  datatype Step = Step(
    id: string,
    runId: Option<string>,
    stepId: Option<string>,
    stepName: Option<string>,
    status: string,
    input: seq<Value>,
    output: Option<Value>,
    error: Option<Value>,
    attempt: int,
    startedAt: Option<int>,
    completedAt: Option<int>,
    createdAt: int,
    updatedAt: int)

  /** An entry of the append-only event log. */
  datatype Event = Event(
    eventId: string,
    runId: Option<string>,
    eventType: Option<string>,
    correlationId: Option<string>,
    payload: Value,
    createdAt: int)

  /** A token-addressed callback reference owned by a run. */
  datatype Hook = Hook(
    hookId: string,
    runId: Option<string>,
    token: Option<string>,
    metadata: Value,
    createdAt: int,
    updatedAt: int)

  /** The only four states a queue message can be in. */
  datatype MessageStatus = Pending | Processing | Completed | Failed

  /** The status text a message carries. */
  function StatusName(st: MessageStatus): (name: string)
    ensures name == "pending" || name == "processing" || name == "completed" || name == "failed"
  {
    match st
    case Pending => "pending"
    case Processing => "processing"
    case Completed => "completed"
    case Failed => "failed"
  }

  /** The status a text names, if any. */
  function ParseStatus(name: string): (st: Option<MessageStatus>)
    ensures st.Some? <==> name in ["pending", "processing", "completed", "failed"]
  {
    if name == "pending" then Some(Pending)
    else if name == "processing" then Some(Processing)
    else if name == "completed" then Some(Completed)
    else if name == "failed" then Some(Failed)
    else None
  }

  /** Every status is written as one of the four texts and reads back as
      itself. */
  lemma StatusNameRoundTrip(st: MessageStatus)
    ensures ParseStatus(StatusName(st)) == Some(st)
  {
  }

  /** A queue message. `payload` is the stored serialization of the enqueued
      value; `None` stands for serializing `undefined`, which yields no text. */
  datatype QueueMessage = QueueMessage(
    messageId: string,
    queueName: Option<string>,
    payload: Option<Value>,
    idempotencyKey: Option<string>,
    status: MessageStatus,
    attempt: int,
    maxAttempts: int,
    notBefore: int,
    createdAt: int,
    updatedAt: int,
    processedAt: Option<int>)

  /** All tables of one database. Maps keep insertion order; events and queue
      messages are arrays. */
  datatype Store = Store(
    runs: Table<Run>,
    steps: Table<Step>,
    events: seq<Event>,
    hooks: Table<Hook>,
    queue: seq<QueueMessage>,
    streams: Table<seq<Value>>)

  /** A freshly constructed store: every table empty. */
  function EmptyStore(): (s: Store)
    ensures s.runs == [] && s.steps == [] && s.hooks == [] && s.streams == []
    ensures s.events == [] && s.queue == []
  {
    Store([], [], [], [], [], [])
  }

  /** The process-wide map from database name to its store. */
  datatype Registry = Registry(instances: map<string, Store>)

  /** `MemoryStorage.get(name)`: the store registered under `name`, creating
      and registering an empty one on first use. */
  function GetStore(reg: Registry, name: string): (r: (Registry, Store))
    ensures name in r.0.instances && r.0.instances[name] == r.1
    ensures name in reg.instances ==> r.0 == reg && r.1 == reg.instances[name]
    ensures name !in reg.instances ==> r.1 == EmptyStore()
    ensures r.0.instances.Keys == reg.instances.Keys + {name}
    ensures forall other :: other in reg.instances && other != name ==>
              r.0.instances[other] == reg.instances[other]
  {
    if name in reg.instances then (reg, reg.instances[name])
    else (Registry(reg.instances[name := EmptyStore()]), EmptyStore())
  }

  /** The registry after the store registered under `name` was changed in place
      to `s`. */
  function Update(reg: Registry, name: string, s: Store): (r: Registry)
    requires name in reg.instances
    ensures r.instances.Keys == reg.instances.Keys
    ensures r.instances[name] == s
    ensures forall other :: other in reg.instances && other != name ==>
              r.instances[other] == reg.instances[other]
  {
    Registry(reg.instances[name := s])
  }

  /** `MemoryStorage.clear()`: forgets every store. */
  function Clear(reg: Registry): (r: Registry)
    ensures r.instances == map[]
  {
    Registry(map[])
  }

  /** Asking twice for the same name yields the same store and no further
      change to the registry. */
  lemma GetTwiceSameStore(reg: Registry, name: string)
    ensures GetStore(GetStore(reg, name).0, name) == GetStore(reg, name)
  {
  }

  /** Every `get` after `clear` starts from an empty store. */
  lemma GetAfterClear(reg: Registry, name: string)
    ensures GetStore(Clear(reg), name).1 == EmptyStore()
  {
  }

  /** A change written back is what the next `get` of that name sees. */
  lemma GetAfterUpdate(reg: Registry, name: string, s: Store)
    requires name in reg.instances
    ensures GetStore(Update(reg, name, s), name) == (Update(reg, name, s), s)
  {
  }

  /** Writing back an unchanged store leaves the registry as it was. */
  lemma UpdateUnchanged(reg: Registry, name: string)
    requires name in reg.instances
    ensures Update(reg, name, reg.instances[name]) == reg
  {
    assert reg.instances[name := reg.instances[name]] == reg.instances;
  }
}
