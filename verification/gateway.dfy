/** The request gateway: the routing decision of `handleRequest` and the
    responses it builds. A request outside `/api/workflows` passes through to
    the network; every other request is routed to exactly one service call or
    to 404, and whatever the call throws becomes a 500 envelope. */
module Gateway {
  import opened Wrappers
  import opened Json
  import opened Text
  import opened Storage
  import opened Service
  import opened MessageQueue

  const Prefix := "/api/workflows"
  const RunsPath := "/api/workflows/runs"
  const RunsDir := "/api/workflows/runs/"
  const StepsPath := "/api/workflows/steps"
  const StepsDir := "/api/workflows/steps/"
  const EventsPath := "/api/workflows/events"
  const HooksPath := "/api/workflows/hooks"
  const QueuePath := "/api/workflows/queue"
  const AckPath := "/api/workflows/queue/ack"
  const NackPath := "/api/workflows/queue/nack"
  const QueueDir := "/api/workflows/queue/"
  const DefaultDb := "postgres"
  const JsonType := "application/json"
  /** The content type a plain string body gets. */
  const TextType := "text/plain;charset=UTF-8"

  /** The query string, as ordered name/value pairs (names may repeat). */
  type Query = seq<(string, string)>

  /** A request body: either unreadable as the object the route expects,
      with the error text reading it throws, or the fields read from it. */
  datatype Body = Unreadable(message: string) | Parsed(data: Data)

  /** A request, with its header names in lower case. */
  datatype Request = Request(verb: string, path: string, query: Query,
                             headers: map<string, string>, body: Body)

  /** The service call a request is routed to. */
  datatype Endpoint =
    | PostRun
    | GetRunById(runId: string)
    | PatchRun(runId: string)
    | ListRunsQuery(query: Query)
    | PostStep
    | GetStepById(runId: string, stepId: string)
    | ListStepsOf(runId: string)
    | PatchStep(runId: string, maybeStepId: Option<string>)
    | PostEvent
    | ListEventsOf(runId: string)
    | PostHook
    | GetHookWithToken(token: string)
    | PostQueue
    | PostAck
    | PostNack
    | PollQueue(queueName: string)
    | NotFound

  datatype Decision = PassThrough | Dispatch(db: string, endpoint: Endpoint)

  // ===========================================================================
  // Query parameters

  /** `searchParams.get(name)`: the first value given for `name`. */
  function SearchGet(query: Query, name: string): (r: Option<string>)
    ensures r.Some? <==> exists i :: 0 <= i < |query| && query[i].0 == name
    ensures r.Some? ==> exists i :: 0 <= i < |query| && query[i] == (name, r.value)
                          && forall j :: 0 <= j < i ==> query[j].0 != name
  {
    if |query| == 0 then None
    else if query[0].0 == name then Some(query[0].1)
    else
      var r := SearchGet(query[1..], name);
      if r.Some? then
        var i :| 0 <= i < |query[1..]| && query[1..][i] == (name, r.value)
                 && forall j :: 0 <= j < i ==> query[1..][j].0 != name;
        assert query[i + 1] == (name, r.value);
        r
      else r
  }

  /** The last value given for `name`. */
  function LastGiven(query: Query, name: string): (r: Option<string>)
    ensures r.Some? <==> exists i :: 0 <= i < |query| && query[i].0 == name
    ensures r.Some? ==> exists i :: 0 <= i < |query| && query[i] == (name, r.value)
                          && forall j :: i < j < |query| ==> query[j].0 != name
  {
    if |query| == 0 then None
    else if query[|query| - 1].0 == name then Some(query[|query| - 1].1)
    else
      var init := query[..|query| - 1];
      var r := LastGiven(init, name);
      if r.Some? then
        var i :| 0 <= i < |init| && init[i] == (name, r.value)
                 && forall j :: i < j < |init| ==> init[j].0 != name;
        assert query[i] == init[i];
        r
      else
        assert forall i :: 0 <= i < |init| ==> query[i] == init[i];
        r
  }

  /** `Object.fromEntries(searchParams.entries())`: later values of a
      repeated name overwrite earlier ones. */
  function FromEntries(query: Query): (m: map<string, string>)
    ensures forall k :: (if k in m then Some(m[k]) else None) == LastGiven(query, k)
  {
    if |query| == 0 then map[]
    else FromEntries(query[..|query| - 1])[query[|query| - 1].0 := query[|query| - 1].1]
  }

  /** A repeated parameter reads differently through the two accessors. */
  lemma RepeatedParameter(name: string, first: string, last: string)
    requires first != last
    ensures SearchGet([(name, first), (name, last)], name) == Some(first)
    ensures FromEntries([(name, first), (name, last)])[name] == last
  {
    var q := [(name, first), (name, last)];
    assert q[..1] == [(name, first)];
    assert q[..1][..0] == [];
  }

  // ===========================================================================
  // Routing

  /** The `x-dbname` header when it is non-empty, else `postgres`. */
  function DbName(headers: map<string, string>): (db: string)
    ensures "x-dbname" in headers && headers["x-dbname"] != "" ==> db == headers["x-dbname"]
    ensures !("x-dbname" in headers && headers["x-dbname"] != "") ==> db == DefaultDb
  {
    if "x-dbname" in headers && headers["x-dbname"] != "" then headers["x-dbname"] else DefaultDb
  }

  /** Splitting a path under `/api/workflows/<dir>/` yields the four leading
      pieces followed by the pieces of the rest. */
  lemma SplitUnder(dir: string, rest: string)
    requires '/' !in dir
    ensures Split(Prefix + "/" + dir + "/" + rest, '/') == ["", "api", "workflows", dir] + Split(rest, '/')
  {
    var tail := dir + ['/'] + rest;
    PathPieces(dir, rest);
    SplitCons(dir, rest, '/');
    SplitCons("workflows", tail, '/');
    SplitCons("api", "workflows" + ['/'] + tail, '/');
    SplitCons("", "api" + ['/'] + ("workflows" + ['/'] + tail), '/');
  }

  /** A path under `/api/workflows/<dir>/`, written piece by piece. */
  lemma PathPieces(dir: string, rest: string)
    ensures Prefix + "/" + dir + "/" + rest
            == "" + ['/'] + ("api" + ['/'] + ("workflows" + ['/'] + (dir + ['/'] + rest)))
  {
  }

  /** A path under the directory `head` of `/api/workflows` has at least
      five pieces. */
  lemma DirParts(path: string, head: string, dir: string)
    requires '/' !in dir && head == Prefix + "/" + dir + "/"
    requires StartsWith(path, head)
    ensures |Split(path, '/')| >= 5 && Split(path, '/')[3] == dir
  {
    var rest := path[|head|..];
    assert path == Prefix + "/" + dir + "/" + rest;
    SplitUnder(dir, rest);
  }

  /** The endpoint of a request under `/api/workflows`, tried in the order of
      the source's checks. */
  function Select(verb: string, path: string, query: Query): Endpoint {
    if path == RunsPath && verb == "POST" then PostRun
    else if StartsWith(path, RunsDir) && verb == "GET" && !EndsWith(path, "/events") then
      GetRunById(Last(Split(path, '/')))
    else if StartsWith(path, RunsDir) && verb == "PATCH" then PatchRun(Last(Split(path, '/')))
    else if path == RunsPath && verb == "GET" then ListRunsQuery(query)
    else if path == StepsPath && verb == "POST" then PostStep
    else if StartsWith(path, StepsDir) && verb == "GET" then
      DirParts(path, StepsDir, "steps");
      var parts := Split(path, '/');
      if |parts| == 6 then GetStepById(parts[4], parts[5]) else ListStepsOf(parts[4])
    else if StartsWith(path, StepsDir) && verb == "PATCH" then
      DirParts(path, StepsDir, "steps");
      var parts := Split(path, '/');
      PatchStep(parts[4], if |parts| > 5 then Some(parts[5]) else None)
    else if path == EventsPath && verb == "POST" then PostEvent
    else if StartsWith(path, RunsDir) && EndsWith(path, "/events") then
      DirParts(path, RunsDir, "runs");
      ListEventsOf(Split(path, '/')[4])
    else if path == HooksPath && verb == "POST" then PostHook
    else if path == HooksPath && verb == "GET" && SearchGet(query, "token").Some?
            && SearchGet(query, "token").value != "" then
      GetHookWithToken(SearchGet(query, "token").value)
    else if path == QueuePath && verb == "POST" then PostQueue
    else if path == AckPath && verb == "POST" then PostAck
    else if path == NackPath && verb == "POST" then PostNack
    else if StartsWith(path, QueueDir) && verb == "GET" then PollQueue(Last(Split(path, '/')))
    else NotFound
  }

  /** `handleRequest`'s routing decision. */
  function Route(req: Request): (d: Decision)
    ensures d.PassThrough? <==> !StartsWith(req.path, Prefix)
    ensures d.Dispatch? ==> d.db == DbName(req.headers)
  {
    if !StartsWith(req.path, Prefix) then PassThrough
    else Dispatch(DbName(req.headers), Select(req.verb, req.path, req.query))
  }

  // ===========================================================================
  // Responses

  /** The value a service call returns, serialized as the response body. */
  datatype Reply =
    | RunReply(run: Run)
    | RunPageReply(page: RunPage)
    | StepReply(step: Step)
    | StepPageReply(steps: StepPage)
    | EventReply(event: Event)
    | EventsReply(events: seq<Event>)
    | HookReply(hook: Hook)
    | MessageIdReply(messageId: string)
    | PollReply(claim: Option<Claim>)
    | SuccessReply

  datatype ResponseBody = TextBody(text: string) | JsonBody(reply: Reply) | ErrorBody(error: string)

  datatype Response = Response(status: int, contentType: string, body: ResponseBody)

  /** `jsonResponse(data)`: status 200 with a JSON body. */
  function Ok(reply: Reply): (r: Response)
    ensures r.status == 200 && r.contentType == JsonType && r.body == JsonBody(reply)
  {
    Response(200, JsonType, JsonBody(reply))
  }

  /** `jsonResponse({error: message}, 500)`. */
  function ServerError(message: string): (r: Response)
    ensures r.status == 500 && r.contentType == JsonType && r.body == ErrorBody(message)
  {
    Response(500, JsonType, ErrorBody(message))
  }

  const NotFoundResponse := Response(404, TextType, TextBody("Not Found"))

  /** The endpoints that read the request body before calling the service. */
  predicate ReadsBody(ep: Endpoint) {
    ep.PostRun? || ep.PatchRun? || ep.PostStep? || ep.PatchStep? || ep.PostEvent?
    || ep.PostHook? || ep.PostQueue? || ep.PostAck? || ep.PostNack?
  }

  /** The endpoints that only read the store. */
  predicate ReadOnly(ep: Endpoint) {
    ep.GetRunById? || ep.ListRunsQuery? || ep.GetStepById? || ep.ListStepsOf? || ep.ListEventsOf?
    || ep.GetHookWithToken?
  }

  /** The endpoints whose service call can throw. */
  predicate MayThrow(ep: Endpoint) {
    ep.GetRunById? || ep.PatchRun? || ep.ListRunsQuery? || ep.GetStepById? || ep.PatchStep?
    || ep.GetHookWithToken? || ep.PollQueue?
  }

  /** The kind of value each endpoint answers with. */
  predicate Answers(ep: Endpoint, reply: Reply) {
    match ep
    case PostRun | GetRunById(_) | PatchRun(_) => reply.RunReply?
    case ListRunsQuery(_) => reply.RunPageReply?
    case PostStep | GetStepById(_, _) | PatchStep(_, _) => reply.StepReply?
    case ListStepsOf(_) => reply.StepPageReply?
    case PostEvent => reply.EventReply?
    case ListEventsOf(_) => reply.EventsReply?
    case PostHook | GetHookWithToken(_) => reply.HookReply?
    case PostQueue => reply.MessageIdReply?
    case PostAck | PostNack => reply.SuccessReply?
    case PollQueue(_) => reply.PollReply?
    case NotFound => false
  }

  function Wrap<T>(r: Result<T, Error>, f: T -> Reply): Result<Reply, Error> {
    if r.Success? then Success(f(r.value)) else Failure(r.error)
  }

  /** The service call of `ep` on the store `s`, with the request body `data`;
      a create takes the fresh id `freshId`. Each call answers with the kind
      of value its endpoint promises, only the calls that can throw do, and
      each writes only the tables of its own family. */
  function Invoke(s: Store, ep: Endpoint, data: Data, now: int, freshId: string)
    : (r: (Store, Result<Reply, Error>))
    requires !ep.NotFound?
    ensures r.1.Success? ==> Answers(ep, r.1.value)
    ensures r.1.Failure? ==> MayThrow(ep)
    ensures r.1.Failure? && !ep.PollQueue? ==> r.0 == s
    ensures ReadOnly(ep) ==> r.0 == s
    ensures ep.PostRun? ==> r.0 == s.(runs := r.0.runs)
    ensures ep.PatchRun? ==> r.0 == s.(runs := r.0.runs, hooks := r.0.hooks)
    ensures ep.PostStep? || ep.PatchStep? ==> r.0 == s.(steps := r.0.steps)
    ensures ep.PostEvent? ==> r.0 == s.(events := r.0.events)
    ensures ep.PostHook? ==> r.0 == s.(hooks := r.0.hooks)
    ensures ep.PostQueue? || ep.PostAck? || ep.PostNack? || ep.PollQueue? ==> r.0 == s.(queue := r.0.queue)
    ensures r.0.streams == s.streams
  {
    if ep.PostRun? || ep.GetRunById? || ep.PatchRun? || ep.ListRunsQuery? then InvokeRuns(s, ep, data, now, freshId)
    else if ep.PostStep? || ep.GetStepById? || ep.ListStepsOf? || ep.PatchStep? then InvokeSteps(s, ep, data, now)
    else if ep.PostEvent? || ep.ListEventsOf? || ep.PostHook? || ep.GetHookWithToken? then
      InvokeEventsHooks(s, ep, data, now, freshId)
    else InvokeQueue(s, ep, data, now, freshId)
  }

  /** The calls under `/runs`. */
  function InvokeRuns(s: Store, ep: Endpoint, data: Data, now: int, freshId: string)
    : (r: (Store, Result<Reply, Error>))
    requires ep.PostRun? || ep.GetRunById? || ep.PatchRun? || ep.ListRunsQuery?
    ensures r.1.Success? ==> Answers(ep, r.1.value)
    ensures r.1.Failure? ==> MayThrow(ep) && r.0 == s
    ensures ReadOnly(ep) ==> r.0 == s
    ensures ep.PostRun? ==> r.0 == s.(runs := r.0.runs)
    ensures r.0 == s.(runs := r.0.runs, hooks := r.0.hooks)
  {
    match ep
    case PostRun =>
      var (s', run) := CreateRun(s, freshId, now, data);
      (s', Success(RunReply(run)))
    case GetRunById(id) => (s, Wrap(GetRun(s, id), (run: Run) => RunReply(run)))
    case PatchRun(id) =>
      var (s', res) := UpdateRun(s, id, data, now);
      (s', Wrap(res, (run: Run) => RunReply(run)))
    case ListRunsQuery(query) => (s, Wrap(ListRuns(s, FromEntries(query)), (p: RunPage) => RunPageReply(p)))
  }

  /** The calls under `/steps`. */
  function InvokeSteps(s: Store, ep: Endpoint, data: Data, now: int): (r: (Store, Result<Reply, Error>))
    requires ep.PostStep? || ep.GetStepById? || ep.ListStepsOf? || ep.PatchStep?
    ensures r.1.Success? ==> Answers(ep, r.1.value)
    ensures r.1.Failure? ==> MayThrow(ep) && r.0 == s
    ensures ReadOnly(ep) ==> r.0 == s
    ensures r.0 == s.(steps := r.0.steps)
  {
    match ep
    case PostStep =>
      var (s', step) := CreateStep(s, data.runId, data, now);
      (s', Success(StepReply(step)))
    case GetStepById(runId, stepId) => (s, Wrap(GetStep(s, runId, Some(stepId)), (st: Step) => StepReply(st)))
    case ListStepsOf(runId) => (s, Success(StepPageReply(ListSteps(s, runId))))
    case PatchStep(runId, stepId) =>
      var (s', res) := UpdateStep(s, runId, stepId, data, now);
      (s', Wrap(res, (st: Step) => StepReply(st)))
  }

  /** The calls under `/events` and `/hooks`. */
  function InvokeEventsHooks(s: Store, ep: Endpoint, data: Data, now: int, freshId: string)
    : (r: (Store, Result<Reply, Error>))
    requires ep.PostEvent? || ep.ListEventsOf? || ep.PostHook? || ep.GetHookWithToken?
    ensures r.1.Success? ==> Answers(ep, r.1.value)
    ensures r.1.Failure? ==> MayThrow(ep) && r.0 == s
    ensures ReadOnly(ep) ==> r.0 == s
    ensures ep.PostEvent? ==> r.0 == s.(events := r.0.events)
    ensures ep.PostHook? ==> r.0 == s.(hooks := r.0.hooks)
  {
    match ep
    case PostEvent =>
      var (s', event) := CreateEvent(s, data.runId, data, freshId, now);
      (s', Success(EventReply(event)))
    case ListEventsOf(runId) => (s, Success(EventsReply(ListEvents(s, runId))))
    case PostHook =>
      var (s', hook) := CreateHook(s, data.runId, data, freshId, now);
      (s', Success(HookReply(hook)))
    case GetHookWithToken(token) => (s, Wrap(GetHookByToken(s, token), (h: Hook) => HookReply(h)))
  }

  /** The calls under `/queue`. */
  function InvokeQueue(s: Store, ep: Endpoint, data: Data, now: int, freshId: string)
    : (r: (Store, Result<Reply, Error>))
    requires ep.PostQueue? || ep.PostAck? || ep.PostNack? || ep.PollQueue?
    ensures r.1.Success? ==> Answers(ep, r.1.value)
    ensures r.1.Failure? ==> ep.PollQueue?
    ensures r.0 == s.(queue := r.0.queue)
  {
    match ep
    case PostQueue =>
      var (s', id) := Enqueue(s, data.queueName, data.message, data.idempotencyKey, freshId, now);
      (s', Success(MessageIdReply(id)))
    case PostAck => (Ack(s, data.messageId, now), Success(SuccessReply))
    case PostNack => (Nack(s, data.messageId, now), Success(SuccessReply))
    case PollQueue(name) =>
      var (s', res) := Poll(s, name, now);
      (s', Wrap(res, (c: Option<Claim>) => PollReply(c)))
  }

  /** 200 with the call's value, or 500 with the message it threw. */
  function Respond(res: Result<Reply, Error>): (r: Response)
    ensures res.Success? ==> r == Ok(res.value)
    ensures res.Failure? ==> r == ServerError(ErrorMessage(res.error))
  {
    if res.Success? then Ok(res.value) else ServerError(ErrorMessage(res.error))
  }

  /** `handleRequest`: no response for a pass-through, 404 for an unknown
      route, otherwise the routed call on the database's store (created on
      first use) answered with 200 and its result, or with 500 and the
      thrown message. A body that cannot be read fails before the store is
      touched. */
  function Handle(reg: Registry, req: Request, now: int, freshId: string): (r: (Registry, Option<Response>))
    ensures Route(req).PassThrough? <==> r.1.None?
    ensures Route(req).PassThrough? ==> r.0 == reg
    ensures Route(req) == Dispatch(DbName(req.headers), NotFound) ==> r == (reg, Some(NotFoundResponse))
    ensures r.1.Some? ==>
      || r.1.value == NotFoundResponse
      || (r.1.value.status == 200 && r.1.value.contentType == JsonType && r.1.value.body.JsonBody?)
      || (r.1.value.status == 500 && r.1.value.contentType == JsonType && r.1.value.body.ErrorBody?)
    ensures forall name :: name in reg.instances && name != DbName(req.headers) ==>
              name in r.0.instances && r.0.instances[name] == reg.instances[name]
    ensures r.0.instances.Keys <= reg.instances.Keys + {DbName(req.headers)}
    ensures Route(req).Dispatch? && ReadsBody(Route(req).endpoint) && req.body.Unreadable? ==>
              r == (reg, Some(ServerError(req.body.message)))
  {
    match Route(req)
    case PassThrough => (reg, None)
    case Dispatch(db, ep) =>
      if ep.NotFound? then (reg, Some(NotFoundResponse))
      else if ReadsBody(ep) && req.body.Unreadable? then (reg, Some(ServerError(req.body.message)))
      else
        var data := if req.body.Parsed? then req.body.data else NoData;
        var (reg1, s) := GetStore(reg, db);
        var (s', res) := Invoke(s, ep, data, now, freshId);
        (Update(reg1, db, s'), Some(Respond(res)))
  }

  // ===========================================================================
  // The route table, read the other way

  /** A path segment: no `/` inside. */
  predicate Segment(s: string) {
    '/' !in s
  }

  /** The endpoints a request can name with the given segments. */
  predicate Addressable(ep: Endpoint) {
    match ep
    case GetRunById(id) => Segment(id) && id != "events"
    case PatchRun(id) => Segment(id)
    case GetStepById(runId, stepId) => Segment(runId) && Segment(stepId)
    case ListStepsOf(runId) => Segment(runId)
    case PatchStep(runId, stepId) => Segment(runId) && (stepId.Some? ==> Segment(stepId.value))
    case ListEventsOf(runId) => Segment(runId)
    case GetHookWithToken(token) => token != ""
    case PollQueue(name) => Segment(name)
    case _ => true
  }

  /** The request a client sends for `ep` on database `db`. */
  function RequestFor(ep: Endpoint, db: string, body: Body): Request {
    var headers := map["x-dbname" := db];
    match ep
    case PostRun => Request("POST", RunsPath, [], headers, body)
    case GetRunById(id) => Request("GET", RunsDir + id, [], headers, body)
    case PatchRun(id) => Request("PATCH", RunsDir + id, [], headers, body)
    case ListRunsQuery(query) => Request("GET", RunsPath, query, headers, body)
    case PostStep => Request("POST", StepsPath, [], headers, body)
    case GetStepById(runId, stepId) => Request("GET", StepsDir + runId + "/" + stepId, [], headers, body)
    case ListStepsOf(runId) => Request("GET", StepsDir + runId, [], headers, body)
    case PatchStep(runId, stepId) =>
      var path := if stepId.Some? then StepsDir + runId + "/" + stepId.value else StepsDir + runId;
      Request("PATCH", path, [], headers, body)
    case PostEvent => Request("POST", EventsPath, [], headers, body)
    case ListEventsOf(runId) => Request("GET", RunsDir + runId + "/events", [], headers, body)
    case PostHook => Request("POST", HooksPath, [], headers, body)
    case GetHookWithToken(token) => Request("GET", HooksPath, [("token", token)], headers, body)
    case PostQueue => Request("POST", QueuePath, [], headers, body)
    case PostAck => Request("POST", AckPath, [], headers, body)
    case PostNack => Request("POST", NackPath, [], headers, body)
    case PollQueue(name) => Request("GET", QueueDir + name, [], headers, body)
    case NotFound => Request("DELETE", Prefix, [], headers, body)
  }

  /** Route paths are told apart by the character after `/api/workflows/`. */
  lemma DiffersAt15(path: string, lit: string)
    requires 15 < |path| && 15 < |lit| && path[15] != lit[15]
    ensures path != lit && !StartsWith(path, lit)
  {
    if StartsWith(path, lit) {
      assert false;
    }
  }

  /** A run path ends in `/events` only when its id is `events`. */
  lemma RunPathNotEvents(id: string)
    requires Segment(id) && id != "events"
    ensures !EndsWith(RunsDir + id, "/events")
  {
    var p := RunsDir + id;
    assert |RunsDir| == 20 && |p| == 20 + |id|;
    assert |p| >= 7 ==> p[|p| - 7..][0] == p[|p| - 7] && p[|p| - 7..][1] == p[|p| - 6];
    if |id| >= 7 {
      assert p[|p| - 7] == id[|id| - 7] && id[|id| - 7] in id;
    } else if |id| == 6 {
      assert p[|p| - 7..] == "/" + id && ("/" + id)[1..] == id && "/events"[1..] == "events";
    } else {
      assert p[|p| - 7] == RunsDir[13 + |id|] && p[|p| - 6] == RunsDir[14 + |id|];
    }
  }

  /** The pieces of a path under `/api/workflows/runs/`. */
  lemma SplitRuns(rest: string)
    ensures Split(RunsDir + rest, '/') == ["", "api", "workflows", "runs"] + Split(rest, '/')
  {
    assert RunsDir + rest == Prefix + "/" + "runs" + "/" + rest;
    SplitUnder("runs", rest);
  }

  lemma SplitSteps(rest: string)
    ensures Split(StepsDir + rest, '/') == ["", "api", "workflows", "steps"] + Split(rest, '/')
  {
    assert StepsDir + rest == Prefix + "/" + "steps" + "/" + rest;
    SplitUnder("steps", rest);
  }

  lemma SplitQueue(rest: string)
    ensures Split(QueueDir + rest, '/') == ["", "api", "workflows", "queue"] + Split(rest, '/')
  {
    assert QueueDir + rest == Prefix + "/" + "queue" + "/" + rest;
    SplitUnder("queue", rest);
  }

  /** The pieces of `a/b` for segments `a` and `b`. */
  lemma SplitPair(a: string, b: string)
    requires Segment(a) && Segment(b)
    ensures Split(a + "/" + b, '/') == [a, b]
  {
    assert a + "/" + b == a + ['/'] + b;
    SplitCons(a, b, '/');
    SplitNoSeparator(b, '/');
  }

  /** Where a path under `/api/workflows/runs/` does not go. */
  lemma UnderRuns(rest: string)
    ensures var path := RunsDir + rest;
      && StartsWith(path, RunsDir) && path != RunsPath
      && path != StepsPath && !StartsWith(path, StepsDir)
  {
    var path := RunsDir + rest;
    StartsWithConcat(RunsDir, rest);
    assert path[15] == 'r';
    DiffersAt15(path, StepsPath);
    DiffersAt15(path, StepsDir);
  }

  /** Where a path under `/api/workflows/steps/` does not go. */
  lemma UnderSteps(rest: string)
    ensures var path := StepsDir + rest;
      && StartsWith(path, StepsDir)
      && path != RunsPath && !StartsWith(path, RunsDir)
  {
    var path := StepsDir + rest;
    StartsWithConcat(StepsDir, rest);
    assert path[15] == 's';
    DiffersAt15(path, RunsPath);
    DiffersAt15(path, RunsDir);
  }

  /** Where a path under `/api/workflows/queue/` does not go. */
  lemma UnderQueue(rest: string)
    ensures var path := QueueDir + rest;
      && StartsWith(path, QueueDir)
      && path != RunsPath && !StartsWith(path, RunsDir)
      && path != StepsPath && !StartsWith(path, StepsDir)
      && path != HooksPath
  {
    var path := QueueDir + rest;
    StartsWithConcat(QueueDir, rest);
    assert path[15] == 'q';
    DiffersAt15(path, RunsPath);
    DiffersAt15(path, RunsDir);
    DiffersAt15(path, StepsPath);
    DiffersAt15(path, StepsDir);
    DiffersAt15(path, HooksPath);
  }

  lemma RouteGetRun(id: string, db: string, body: Body)
    requires Addressable(GetRunById(id)) && db != ""
    ensures Route(RequestFor(GetRunById(id), db, body)) == Dispatch(db, GetRunById(id))
  {
    var req := RequestFor(GetRunById(id), db, body);
    assert req == Request("GET", RunsDir + id, [], map["x-dbname" := db], body);
    UnderPrefix(RunsDir, id);
    SelectGetRun(id);
  }

  /** A path under a route directory is under `/api/workflows`. */
  lemma UnderPrefix(dir: string, rest: string)
    requires StartsWith(dir, Prefix)
    ensures StartsWith(dir + rest, Prefix)
  {
    assert (dir + rest)[..|Prefix|] == dir[..|Prefix|];
  }

  /** A GET of a run's path selects that run. */
  lemma SelectGetRun(id: string)
    requires Addressable(GetRunById(id))
    ensures Select("GET", RunsDir + id, []) == GetRunById(id)
  {
    UnderRuns(id);
    RunPathNotEvents(id);
    SplitRuns(id);
    SplitNoSeparator(id, '/');
  }

  lemma RoutePatchRun(id: string, db: string, body: Body)
    requires Addressable(PatchRun(id)) && db != ""
    ensures Route(RequestFor(PatchRun(id), db, body)) == Dispatch(db, PatchRun(id))
  {
    var req := RequestFor(PatchRun(id), db, body);
    assert req == Request("PATCH", RunsDir + id, [], map["x-dbname" := db], body);
    UnderPrefix(RunsDir, id);
    SelectPatchRun(id);
  }

  lemma SelectPatchRun(id: string)
    requires Addressable(PatchRun(id))
    ensures Select("PATCH", RunsDir + id, []) == PatchRun(id)
  {
    UnderRuns(id);
    SplitRuns(id);
    SplitNoSeparator(id, '/');
  }


  /** What routing sees of a path naming one step. */
  lemma StepPathFacts(runId: string, stepId: string)
    requires Segment(runId) && Segment(stepId)
    ensures var path := StepsDir + runId + "/" + stepId;
      && StartsWith(path, StepsDir) && path != RunsPath && !StartsWith(path, RunsDir)
      && path != StepsPath && path != EventsPath
      && Split(path, '/') == ["", "api", "workflows", "steps", runId, stepId]
  {
    var rest := runId + "/" + stepId;
    assert StepsDir + runId + "/" + stepId == StepsDir + rest;
    UnderSteps(rest);
    SplitSteps(rest);
    SplitPair(runId, stepId);
    assert |StepsDir + rest| > |StepsPath| && |StepsDir + rest| > |EventsPath|;
  }

  lemma RouteGetStep(runId: string, stepId: string, db: string, body: Body)
    requires Addressable(GetStepById(runId, stepId)) && db != ""
    ensures Route(RequestFor(GetStepById(runId, stepId), db, body)) == Dispatch(db, GetStepById(runId, stepId))
  {
    var req := RequestFor(GetStepById(runId, stepId), db, body);
    assert req == Request("GET", StepsDir + runId + "/" + stepId, [], map["x-dbname" := db], body);
    assert StepsDir + runId + "/" + stepId == StepsDir + (runId + "/" + stepId);
    UnderPrefix(StepsDir, runId + "/" + stepId);
    SelectGetStep(runId, stepId);
  }

  lemma SelectGetStep(runId: string, stepId: string)
    requires Addressable(GetStepById(runId, stepId))
    ensures Select("GET", StepsDir + runId + "/" + stepId, []) == GetStepById(runId, stepId)
  {
    StepPathFacts(runId, stepId);
  }


  lemma RouteListSteps(runId: string, db: string, body: Body)
    requires Addressable(ListStepsOf(runId)) && db != ""
    ensures Route(RequestFor(ListStepsOf(runId), db, body)) == Dispatch(db, ListStepsOf(runId))
  {
    var req := RequestFor(ListStepsOf(runId), db, body);
    assert req == Request("GET", StepsDir + runId, [], map["x-dbname" := db], body);
    UnderPrefix(StepsDir, runId);
    SelectListSteps(runId);
  }

  lemma SelectListSteps(runId: string)
    requires Addressable(ListStepsOf(runId))
    ensures Select("GET", StepsDir + runId, []) == ListStepsOf(runId)
  {
    UnderSteps(runId);
    SplitSteps(runId);
    SplitNoSeparator(runId, '/');
  }


  lemma RoutePatchStep(runId: string, stepId: string, db: string, body: Body)
    requires Addressable(PatchStep(runId, Some(stepId))) && db != ""
    ensures Route(RequestFor(PatchStep(runId, Some(stepId)), db, body)) == Dispatch(db, PatchStep(runId, Some(stepId)))
  {
    var req := RequestFor(PatchStep(runId, Some(stepId)), db, body);
    assert req == Request("PATCH", StepsDir + runId + "/" + stepId, [], map["x-dbname" := db], body);
    assert StepsDir + runId + "/" + stepId == StepsDir + (runId + "/" + stepId);
    UnderPrefix(StepsDir, runId + "/" + stepId);
    SelectPatchStep(runId, stepId);
  }

  lemma SelectPatchStep(runId: string, stepId: string)
    requires Addressable(PatchStep(runId, Some(stepId)))
    ensures Select("PATCH", StepsDir + runId + "/" + stepId, []) == PatchStep(runId, Some(stepId))
  {
    StepPathFacts(runId, stepId);
  }


  lemma RoutePatchStepNoId(runId: string, db: string, body: Body)
    requires Addressable(PatchStep(runId, None)) && db != ""
    ensures Route(RequestFor(PatchStep(runId, None), db, body)) == Dispatch(db, PatchStep(runId, None))
  {
    var req := RequestFor(PatchStep(runId, None), db, body);
    assert req == Request("PATCH", StepsDir + runId, [], map["x-dbname" := db], body);
    UnderPrefix(StepsDir, runId);
    SelectPatchStepNoId(runId);
  }

  lemma SelectPatchStepNoId(runId: string)
    requires Addressable(PatchStep(runId, None))
    ensures Select("PATCH", StepsDir + runId, []) == PatchStep(runId, None)
  {
    UnderSteps(runId);
    SplitSteps(runId);
    SplitNoSeparator(runId, '/');
  }


  /** What routing sees of an events path. */
  lemma EventsPathFacts(runId: string)
    requires Segment(runId)
    ensures var path := RunsDir + runId + "/events";
      && StartsWith(path, RunsDir) && EndsWith(path, "/events") && path != RunsPath
      && path != StepsPath && !StartsWith(path, StepsDir)
      && Split(path, '/') == ["", "api", "workflows", "runs", runId, "events"]
  {
    var rest := runId + "/events";
    assert RunsDir + runId + "/events" == RunsDir + rest;
    UnderRuns(rest);
    EndsWithConcat(RunsDir + runId, "/events");
    EventsPathSplit(runId);
  }

  lemma EventsPathSplit(runId: string)
    requires Segment(runId)
    ensures Split(RunsDir + runId + "/events", '/') == ["", "api", "workflows", "runs", runId, "events"]
  {
    var rest := runId + "/events";
    assert RunsDir + runId + "/events" == RunsDir + rest;
    SplitRuns(rest);
    assert rest == runId + "/" + "events";
    SplitPair(runId, "events");
  }

  lemma RouteListEvents(runId: string, db: string, body: Body)
    requires Addressable(ListEventsOf(runId)) && db != ""
    ensures Route(RequestFor(ListEventsOf(runId), db, body)) == Dispatch(db, ListEventsOf(runId))
  {
    var req := RequestFor(ListEventsOf(runId), db, body);
    assert req == Request("GET", RunsDir + runId + "/events", [], map["x-dbname" := db], body);
    assert RunsDir + runId + "/events" == RunsDir + (runId + "/events");
    UnderPrefix(RunsDir, runId + "/events");
    SelectListEvents(runId);
  }

  lemma SelectListEvents(runId: string)
    requires Addressable(ListEventsOf(runId))
    ensures Select("GET", RunsDir + runId + "/events", []) == ListEventsOf(runId)
  {
    EventsPathFacts(runId);
  }


  lemma RoutePollQueue(name: string, db: string, body: Body)
    requires Addressable(PollQueue(name)) && db != ""
    ensures Route(RequestFor(PollQueue(name), db, body)) == Dispatch(db, PollQueue(name))
  {
    var req := RequestFor(PollQueue(name), db, body);
    assert req == Request("GET", QueueDir + name, [], map["x-dbname" := db], body);
    UnderPrefix(QueueDir, name);
    SelectPollQueue(name);
  }

  lemma SelectPollQueue(name: string)
    requires Addressable(PollQueue(name))
    ensures Select("GET", QueueDir + name, []) == PollQueue(name)
  {
    UnderQueue(name);
    SplitQueue(name);
    SplitNoSeparator(name, '/');
  }


  /** A fixed path lies under neither `/runs/` nor `/steps/`. */
  lemma FixedPathFacts(path: string)
    requires path in [RunsPath, StepsPath, EventsPath, HooksPath, QueuePath, AckPath, NackPath, Prefix]
    ensures StartsWith(path, Prefix)
    ensures !StartsWith(path, RunsDir) && !StartsWith(path, StepsDir)
  {
    if |path| > 15 {
      assert path[15] != 'r' || path == RunsPath;
      assert path[15] != 's' || path == StepsPath;
    }
  }

  /** The endpoints reached by a fixed path under `/runs` or `/steps`. */
  lemma RouteRunsStepsFixed(ep: Endpoint, db: string, body: Body)
    requires ep.PostRun? || ep.ListRunsQuery? || ep.PostStep?
    requires db != ""
    ensures Route(RequestFor(ep, db, body)) == Dispatch(db, ep)
  {
    FixedPathFacts(RequestFor(ep, db, body).path);
  }

  /** The endpoints reached by the events and hooks paths. */
  lemma RouteEventsHooksFixed(ep: Endpoint, db: string, body: Body)
    requires Addressable(ep) && db != ""
    requires ep.PostEvent? || ep.PostHook? || ep.GetHookWithToken?
    ensures Route(RequestFor(ep, db, body)) == Dispatch(db, ep)
  {
    var req := RequestFor(ep, db, body);
    FixedPathFacts(req.path);
    if ep.GetHookWithToken? {
      assert SearchGet(req.query, "token") == Some(ep.token);
    }
  }

  /** The endpoints reached by the fixed queue paths, and the fall-through. */
  lemma RouteQueueFixed(ep: Endpoint, db: string, body: Body)
    requires ep.PostQueue? || ep.PostAck? || ep.PostNack? || ep.NotFound?
    requires db != ""
    ensures Route(RequestFor(ep, db, body)) == Dispatch(db, ep)
  {
    var path := RequestFor(ep, db, body).path;
    FixedPathFacts(path);
    assert path == AckPath || path == NackPath ==> path != QueuePath;
    assert path == NackPath ==> path != AckPath;
  }

  /** Routing the request built for an addressable endpoint yields that
      endpoint on that database. */
  lemma RouteRoundTrip(ep: Endpoint, db: string, body: Body)
    requires Addressable(ep) && db != ""
    ensures Route(RequestFor(ep, db, body)) == Dispatch(db, ep)
  {
    match ep
    case GetRunById(id) => RouteGetRun(id, db, body);
    case PatchRun(id) => RoutePatchRun(id, db, body);
    case GetStepById(runId, stepId) => RouteGetStep(runId, stepId, db, body);
    case ListStepsOf(runId) => RouteListSteps(runId, db, body);
    case PatchStep(runId, stepId) =>
      if stepId.Some? {
        RoutePatchStep(runId, stepId.value, db, body);
      } else {
        RoutePatchStepNoId(runId, db, body);
      }
    case ListEventsOf(runId) => RouteListEvents(runId, db, body);
    case PollQueue(name) => RoutePollQueue(name, db, body);
    case PostRun => RouteRunsStepsFixed(ep, db, body);
    case ListRunsQuery(_) => RouteRunsStepsFixed(ep, db, body);
    case PostStep => RouteRunsStepsFixed(ep, db, body);
    case PostEvent => RouteEventsHooksFixed(ep, db, body);
    case PostHook => RouteEventsHooksFixed(ep, db, body);
    case GetHookWithToken(_) => RouteEventsHooksFixed(ep, db, body);
    case _ => RouteQueueFixed(ep, db, body);
  }

  // ===========================================================================
  // Whole requests

  /** A routed request with a readable body: the call on the database's
      store, answered with its outcome. A step of the end-to-end lemmas
      below. */
  lemma HandleDispatched(reg: Registry, req: Request, now: int, freshId: string, db: string, ep: Endpoint)
    requires Route(req) == Dispatch(db, ep) && !ep.NotFound? && req.body.Parsed?
    ensures var (reg0, s) := GetStore(reg, db);
      var (s1, res) := Invoke(s, ep, req.body.data, now, freshId);
      Handle(reg, req, now, freshId) == (Update(reg0, db, s1), Some(Respond(res)))
  {
  }

  /** A run created over HTTP is served back, unchanged, by the next `GET` of
      its id on the same database. */
  lemma CreatedRunIsServed(reg: Registry, db: string, data: Data, now: int, id: string,
                           later: int, otherId: string)
    requires db != "" && Segment(id) && id != "events"
    ensures var (reg1, created) := Handle(reg, RequestFor(PostRun, db, Parsed(data)), now, id);
      && created.Some? && created.value.status == 200
      && created.value.body.JsonBody? && created.value.body.reply.RunReply?
      && created.value.body.reply.run.runId == id
      && Handle(reg1, RequestFor(GetRunById(id), db, Parsed(NoData)), later, otherId)
         == (reg1, Some(Ok(created.value.body.reply)))
  {
    RouteRunsStepsFixed(PostRun, db, Parsed(data));
    RouteGetRun(id, db, Parsed(NoData));
    var (reg0, s) := GetStore(reg, db);
    var (s1, run) := CreateRun(s, id, now, data);
    var reg1 := Update(reg0, db, s1);
    HandleDispatched(reg, RequestFor(PostRun, db, Parsed(data)), now, id, db, PostRun);
    HandleDispatched(reg1, RequestFor(GetRunById(id), db, Parsed(NoData)), later, otherId, db, GetRunById(id));
    GetAfterUpdate(reg0, db, s1);
    UpdateUnchanged(reg1, db);
    assert GetRun(s1, id) == Success(run);
  }

  /** A `GET` of a run the database does not hold answers 500 with the
      service's message, and registers the database if it was new. */
  lemma MissingRunIsServerError(reg: Registry, db: string, id: string, now: int, freshId: string)
    requires db != "" && Segment(id) && id != "events"
    requires db in reg.instances ==> id !in Table.Keys(reg.instances[db].runs)
    ensures var (reg1, response) := Handle(reg, RequestFor(GetRunById(id), db, Parsed(NoData)), now, freshId);
      && response == Some(ServerError("Run " + id + " not found"))
      && reg1 == GetStore(reg, db).0
  {
    RouteGetRun(id, db, Parsed(NoData));
    HandleDispatched(reg, RequestFor(GetRunById(id), db, Parsed(NoData)), now, freshId, db, GetRunById(id));
    var (reg0, s) := GetStore(reg, db);
    assert id !in Table.Keys(s.runs);
    UpdateUnchanged(reg0, db);
  }

  /** A `GET` of the hooks path without a non-empty `token` parameter is not a
      route: it answers 404 and touches no store. */
  lemma HookWithoutTokenNotFound(reg: Registry, db: string, query: Query, body: Body, now: int,
                                 freshId: string)
    requires db != ""
    requires SearchGet(query, "token").None? || SearchGet(query, "token") == Some("")
    ensures Handle(reg, Request("GET", HooksPath, query, map["x-dbname" := db], body), now, freshId)
            == (reg, Some(NotFoundResponse))
  {
    var req := Request("GET", HooksPath, query, map["x-dbname" := db], body);
    SelectHookWithoutToken(query);
    assert StartsWith(HooksPath, Prefix);
    assert Route(req) == Dispatch(DbName(req.headers), NotFound);
  }

  /** Without a non-empty `token`, the hooks path selects no endpoint. */
  lemma SelectHookWithoutToken(query: Query)
    requires SearchGet(query, "token").None? || SearchGet(query, "token") == Some("")
    ensures Select("GET", HooksPath, query) == NotFound
  {
    FixedPathFacts(HooksPath);
    DiffersAt15(HooksPath, QueueDir);
  }

  /** A message queued over HTTP is what the next poll of its queue on the
      same database hands out, as its first attempt, provided nothing older
      on that queue is waiting. */
  lemma EnqueuedIsPolled(reg: Registry, db: string, q: string, payload: Value, now: int, id: string,
                         later: int, otherId: string)
    requires db != "" && Segment(q) && now <= later
    requires db in reg.instances ==> FirstEligible(reg.instances[db].queue, q, later).None?
    ensures var body := Parsed(NoData.(queueName := Some(q), message := Some(payload)));
      var (reg1, queued) := Handle(reg, RequestFor(PostQueue, db, body), now, id);
      && queued == Some(Ok(MessageIdReply(id)))
      && Handle(reg1, RequestFor(PollQueue(q), db, Parsed(NoData)), later, otherId).1
         == Some(Ok(PollReply(Some(Claim(id, payload, 1)))))
  {
    var (reg0, s) := GetStore(reg, db);
    var (s1, mid) := Enqueue(s, Some(q), Some(payload), None, id, now);
    HandleQueued(reg, db, q, payload, now, id);
    EnqueueThenPoll(s, q, payload, id, now, later);
    var reg1 := Update(reg0, db, s1);
    HandlePolled(reg1, db, q, later, otherId, Some(Claim(id, payload, 1)));
  }

  /** The `POST /queue` step of the lemma above. */
  lemma HandleQueued(reg: Registry, db: string, q: string, payload: Value, now: int, id: string)
    requires db != ""
    ensures var body := Parsed(NoData.(queueName := Some(q), message := Some(payload)));
      var (reg0, s) := GetStore(reg, db);
      var s1 := Enqueue(s, Some(q), Some(payload), None, id, now).0;
      Handle(reg, RequestFor(PostQueue, db, body), now, id) == (Update(reg0, db, s1), Some(Ok(MessageIdReply(id))))
  {
    var data := NoData.(queueName := Some(q), message := Some(payload));
    RouteQueueFixed(PostQueue, db, Parsed(data));
    HandleDispatched(reg, RequestFor(PostQueue, db, Parsed(data)), now, id, db, PostQueue);
  }

  /** The `GET /queue/<name>` step of the lemma above. */
  lemma HandlePolled(reg: Registry, db: string, q: string, later: int, otherId: string, c: Option<Claim>)
    requires db != "" && Segment(q) && db in reg.instances
    requires Poll(reg.instances[db], q, later).1 == Success(c)
    ensures Handle(reg, RequestFor(PollQueue(q), db, Parsed(NoData)), later, otherId).1 == Some(Ok(PollReply(c)))
  {
    RoutePollQueue(q, db, Parsed(NoData));
    HandleDispatched(reg, RequestFor(PollQueue(q), db, Parsed(NoData)), later, otherId, db, PollQueue(q));
  }
}
