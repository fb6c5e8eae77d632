/** The record service's run, step, event and hook operations. Each operation
    is a function from the current store (plus the clock reading `now` and any
    freshly generated id) to the new store and the operation's result; errors
    the source throws are `Failure` results. */
module Service {
  import opened Wrappers
  import opened Json
  import opened Text
  import opened Table
  import opened Storage
  import Seqs
  import Sorting

  /** A request body: the fields the service reads from it, each absent
      (`undefined`) or present with the type the record interfaces give it. */
  datatype Data = Data(
    runId: Option<string>,
    stepId: Option<string>,
    stepName: Option<string>,
    workflowName: Option<string>,
    deploymentId: Option<string>,
    status: Option<string>,
    input: Option<seq<Value>>,
    output: Option<Value>,
    error: Option<Value>,
    executionContext: Option<Value>,
    attempt: Option<int>,
    eventType: Option<string>,
    correlationId: Option<string>,
    payload: Option<Value>,
    eventData: Option<Value>,
    hookId: Option<string>,
    token: Option<string>,
    metadata: Option<Value>,
    queueName: Option<string>,
    message: Option<Value>,
    idempotencyKey: Option<string>,
    messageId: Option<string>)

  /** The empty body `{}`. */
  const NoData: Data := Data(None, None, None, None, None, None, None, None, None, None, None,
                             None, None, None, None, None, None, None, None, None, None, None)

  /** What the service throws. */
  datatype Error =
    | RunNotFound(runId: string)
    | StepNotFound(stepId: string)
    | HookNotFound
    | PayloadNotJson           // parsing a stored payload that serialized to nothing
    | CursorOfEmptyPage        // reading `runId` of the last element of an empty page
    | BodyNotJson(detail: string)
    | ResumeAtOfNull           // reading `resumeAt` of a `null` wait payload

  function ErrorMessage(e: Error): string {
    match e
    case RunNotFound(id) => "Run " + id + " not found"
    case StepNotFound(id) => "Step " + id + " not found"
    case HookNotFound => "Hook not found"
    case PayloadNotJson => "\"undefined\" is not valid JSON"
    case CursorOfEmptyPage => "Cannot read properties of undefined (reading 'runId')"
    case BodyNotJson(detail) => detail
    case ResumeAtOfNull => "Cannot read properties of null (reading 'resumeAt')"
  }

  const RunningStatus := "running"

  /** The statuses that end a run. */
  predicate IsTerminalRunStatus(status: Option<string>) {
    status == Some("completed") || status == Some("failed") || status == Some("cancelled")
  }

  /** The statuses that end a step. */
  predicate IsTerminalStepStatus(status: Option<string>) {
    status == Some("completed") || status == Some("failed")
  }

  /** `a || b` for a string that may be `undefined`. */
  function OrString(a: Option<string>, b: string): (r: string)
    ensures a.Some? && a.value != "" ==> r == a.value
    ensures a.None? || a.value == "" ==> r == b
  {
    if a.Some? && a.value != "" then a.value else b
  }

  // ===========================================================================
  // Runs

  /** `createRun`: stores a new pending run under the fresh id `runId`. */
  function CreateRun(s: Store, runId: string, now: int, data: Data): (r: (Store, Run))
    ensures r.1.runId == runId && r.1.status == "pending"
    ensures r.1.startedAt.None? && r.1.completedAt.None?
    ensures r.1.createdAt == now && r.1.updatedAt == now
    ensures r.1.workflowName == data.workflowName
    ensures r.1.deploymentId == OrString(data.deploymentId, "default")
    ensures r.1.input == data.input.GetOr([])
    ensures r.1.executionContext == Or(data.executionContext, EmptyObject)
    ensures Get(r.0.runs, runId) == Some(r.1)
    ensures forall k :: k != runId ==> Get(r.0.runs, k) == Get(s.runs, k)
    ensures r.0 == s.(runs := r.0.runs)
  {
    var run := Run(runId, "pending", OrString(data.deploymentId, "default"), data.workflowName,
                   data.input.GetOr([]), None, None, Or(data.executionContext, EmptyObject),
                   None, None, now, now);
    (s.(runs := Set(s.runs, runId, run)), run)
  }

  /** `getRun`: the run stored under `runId`, or `Run <id> not found`. */
  function GetRun(s: Store, runId: string): (r: Result<Run, Error>)
    ensures r.Success? <==> runId in Keys(s.runs)
    ensures r.Success? ==> Get(s.runs, runId) == Some(r.value)
    ensures r.Failure? ==> r.error == RunNotFound(runId)
  {
    var run := Get(s.runs, runId);
    if run.Some? then Success(run.value) else Failure(RunNotFound(runId))
  }

  /** `Object.assign(run, data)` for the run fields a body can carry. */
  function AssignRun(run: Run, data: Data): Run {
    run.(runId := data.runId.GetOr(run.runId),
         status := data.status.GetOr(run.status),
         deploymentId := data.deploymentId.GetOr(run.deploymentId),
         workflowName := if data.workflowName.Some? then data.workflowName else run.workflowName,
         input := data.input.GetOr(run.input),
         output := if data.output.Some? then data.output else run.output,
         error := if data.error.Some? then data.error else run.error,
         executionContext := data.executionContext.GetOr(run.executionContext))
  }

  predicate OwnedBy(h: Hook, runId: string) {
    h.runId == Some(runId)
  }

  function OwnedByRun(runId: string): Hook -> bool {
    (h: Hook) => OwnedBy(h, runId)
  }

  /** `updateRun`: merges `data` into the stored run. Moving to `running` stamps
      `startedAt` only if it was unset; moving to a terminal status stamps
      `completedAt` (every time) and deletes the run's hooks. No transition is
      refused. */
  function UpdateRun(s: Store, runId: string, data: Data, now: int): (r: (Store, Result<Run, Error>))
    ensures runId !in Keys(s.runs) ==> r == (s, Failure(RunNotFound(runId)))
    ensures runId in Keys(s.runs) ==> r.1.Success?
    ensures r.1.Success? ==>
      var prev := Get(s.runs, runId).value;
      var next := r.1.value;
      && next.status == data.status.GetOr(prev.status)
      && next.startedAt == (if data.status == Some(RunningStatus) && prev.startedAt.None?
                           then Some(now) else prev.startedAt)
      && next.completedAt == (if IsTerminalRunStatus(data.status) then Some(now) else prev.completedAt)
      && next.updatedAt == now
      && next.createdAt == prev.createdAt
      && next.output == (if data.output.Some? then data.output else prev.output)
      && next.error == (if data.error.Some? then data.error else prev.error)
      && next.input == data.input.GetOr(prev.input)
      && next.executionContext == data.executionContext.GetOr(prev.executionContext)
      && next.deploymentId == data.deploymentId.GetOr(prev.deploymentId)
      && next.workflowName == (if data.workflowName.Some? then data.workflowName else prev.workflowName)
      && next.runId == data.runId.GetOr(prev.runId)
      && Get(r.0.runs, runId) == Some(next)
      && Keys(r.0.runs) == Keys(s.runs)
    ensures forall k :: k != runId ==> Get(r.0.runs, k) == Get(s.runs, k)
    ensures r.0.steps == s.steps && r.0.events == s.events && r.0.queue == s.queue
    ensures !(r.1.Success? && IsTerminalRunStatus(data.status)) ==> r.0.hooks == s.hooks
    ensures r.1.Success? && IsTerminalRunStatus(data.status) ==>
      && r.0.hooks == DeleteWhere(s.hooks, OwnedByRun(runId))
      && (forall i :: 0 <= i < |r.0.hooks| ==> r.0.hooks[i] in s.hooks && !OwnedBy(r.0.hooks[i].value, runId))
      && (forall i :: 0 <= i < |s.hooks| && !OwnedBy(s.hooks[i].value, runId) ==> s.hooks[i] in r.0.hooks)
  {
    match GetRun(s, runId)
    case Failure(e) => (s, Failure(e))
    case Success(run) =>
      var started := if data.status == Some(RunningStatus) && run.startedAt.None?
                     then run.(startedAt := Some(now)) else run;
      var stamped := if IsTerminalRunStatus(data.status) then started.(completedAt := Some(now)) else started;
      var hooks := if IsTerminalRunStatus(data.status)
                   then DeleteWhere(s.hooks, OwnedByRun(runId)) else s.hooks;
      var updated := AssignRun(stamped, data).(updatedAt := now);
      (s.(runs := Set(s.runs, runId, updated), hooks := hooks), Success(updated))
  }

  /** The query parameters of `listRuns`, as an object of strings. */
  type Params = map<string, string>

  /** A filter parameter is in force when present and non-empty. */
  predicate FilterOn(params: Params, name: string) {
    name in params && params[name] != ""
  }

  predicate MatchesFilters(run: Run, params: Params) {
    && (FilterOn(params, "workflowName") ==> run.workflowName == Some(params["workflowName"]))
    && (FilterOn(params, "status") ==> run.status == params["status"])
  }

  /** `parseInt(params.limit) || 100`: a missing, unparsable or zero limit
      means 100; any other value, negative ones included, is taken as is. */
  function PageLimit(params: Params): (limit: int)
    ensures limit != 0
    ensures "limit" !in params ==> limit == 100
    ensures "limit" in params && ParseInt(params["limit"]).None? ==> limit == 100
    ensures "limit" in params && ParseInt(params["limit"]) == Some(0) ==> limit == 100
    ensures "limit" in params && ParseInt(params["limit"]).Some? && ParseInt(params["limit"]).value != 0 ==>
              limit == ParseInt(params["limit"]).value
  {
    var parsed := if "limit" in params then ParseInt(params["limit"]) else None;
    if parsed.Some? && parsed.value != 0 then parsed.value else 100
  }

  /** The end index of `slice(0, limit)` on `n` elements; a negative limit
      counts back from the end. */
  function SliceEnd(n: nat, limit: int): (e: nat)
    ensures e <= n
    ensures limit >= 0 ==> e == if limit < n then limit else n
    ensures limit < 0 ==> e == if n + limit > 0 then n + limit else 0
  {
    if limit >= 0 then (if limit < n then limit else n)
    else if n + limit > 0 then n + limit else 0
  }

  /** Newest first: descending run ids. */
  predicate RunIdDescending(a: Run, b: Run) {
    Le(b.runId, a.runId)
  }

  lemma RunIdDescendingIsTotal()
    ensures Sorting.Total(RunIdDescending)
    ensures Sorting.Transitive(RunIdDescending)
  {
    forall a: Run, b: Run ensures RunIdDescending(a, b) || RunIdDescending(b, a) {
      LeTotal(a.runId, b.runId);
    }
    forall a: Run, b: Run, c: Run | RunIdDescending(a, b) && RunIdDescending(b, c)
      ensures RunIdDescending(a, c)
    {
      LeTransitive(c.runId, b.runId, a.runId);
    }
  }

  /** `MatchesFilters` as a test on runs. */
  function MatchesAll(params: Params): Run -> bool {
    (run: Run) => MatchesFilters(run, params)
  }

  /** The stored runs that pass the filters, in map order. */
  function MatchingRuns(s: Store, params: Params): (r: seq<Run>)
    ensures forall i :: 0 <= i < |r| ==> MatchesFilters(r[i], params)
    ensures multiset(r) <= multiset(Values(s.runs))
  {
    Seqs.Filter(Values(s.runs), MatchesAll(params))
  }

  /** The matching runs, newest first. */
  function SortedMatches(s: Store, params: Params): (r: seq<Run>)
    ensures |r| == |MatchingRuns(s, params)|
    ensures multiset(r) == multiset(MatchingRuns(s, params))
    ensures Sorting.Sorted(r, RunIdDescending)
    ensures forall i :: 0 <= i < |r| ==> MatchesFilters(r[i], params)
  {
    RunIdDescendingIsTotal();
    var matching := MatchingRuns(s, params);
    Sorting.SortPreserves(matching, RunIdDescending, MatchesAll(params));
    Sorting.Sort(matching, RunIdDescending)
  }

  /** The id of the last run of a page. */
  function LastRunId(page: seq<Run>): Option<string> {
    if |page| == 0 then None else Some(page[|page| - 1].runId)
  }

  datatype RunPage = RunPage(data: seq<Run>, hasMore: bool, cursor: Option<string>)

  /** The runs of one `listRuns` page: the matching runs, newest first, cut
      by `slice(0, limit)`. */
  function PageRuns(s: Store, params: Params): (page: seq<Run>)
    ensures |page| == SliceEnd(|MatchingRuns(s, params)|, PageLimit(params))
    ensures forall i :: 0 <= i < |page| ==> MatchesFilters(page[i], params)
    ensures multiset(page) <= multiset(Values(s.runs))
    ensures Sorting.Sorted(page, RunIdDescending)
  {
    var sorted := SortedMatches(s, params);
    var end := SliceEnd(|sorted|, PageLimit(params));
    Seqs.Prefix(sorted, end);
    Sorting.SortedPrefix(sorted, RunIdDescending, end);
    sorted[..end]
  }

  /** `listRuns`: one page of matching runs, with `hasMore` and the cursor of
      the page's last run. With a negative limit the page drops runs from the
      end and `hasMore` is always set; when that leaves the page empty,
      reading its cursor throws. */
  function ListRuns(s: Store, params: Params): (r: Result<RunPage, Error>)
    ensures
      var n := |MatchingRuns(s, params)|;
      var limit := PageLimit(params);
      && (r.Failure? <==> limit < 0 && n + limit <= 0)
      && (r.Failure? ==> r.error == CursorOfEmptyPage)
      && (r.Success? ==>
            && r.value.data == PageRuns(s, params)
            && (r.value.hasMore <==> n > limit)
            && (r.value.hasMore ==> |r.value.data| > 0)
            && r.value.cursor == (if r.value.hasMore then LastRunId(r.value.data) else None))
  {
    var data := PageRuns(s, params);
    var hasMore := |MatchingRuns(s, params)| > PageLimit(params);
    if hasMore && |data| == 0 then Failure(CursorOfEmptyPage)
    else Success(RunPage(data, hasMore, if hasMore then LastRunId(data) else None))
  }

  /** Every matching stored run has a place in the sorted matches. */
  lemma PlaceInSortedMatches(s: Store, params: Params, x: Run) returns (p: nat)
    requires x in Values(s.runs) && MatchesFilters(x, params)
    ensures p < |SortedMatches(s, params)| && SortedMatches(s, params)[p] == x
  {
    var sorted := SortedMatches(s, params);
    var matching := MatchingRuns(s, params);
    assert matching == Seqs.Filter(Values(s.runs), MatchesAll(params));
    Seqs.FilterKeeps(Values(s.runs), MatchesAll(params), x);
    assert x in multiset(matching);
    assert x in multiset(sorted);
    p := Seqs.MultisetIndex(sorted, x);
  }

  /** A page holds the newest matching runs: any matching stored run left off
      the page is older than every run on it. */
  lemma ListRunsNewestFirst(s: Store, params: Params, x: Run)
    requires ListRuns(s, params).Success?
    requires x in Values(s.runs) && MatchesFilters(x, params)
    ensures var page := ListRuns(s, params).value.data;
      x in page || forall i :: 0 <= i < |page| ==> Le(x.runId, page[i].runId)
  {
    var sorted := SortedMatches(s, params);
    var end := SliceEnd(|sorted|, PageLimit(params));
    var page := ListRuns(s, params).value.data;
    assert page == sorted[..end];
    Seqs.Prefix(sorted, end);
    var p := PlaceInSortedMatches(s, params, x);
    if p < end {
      assert page[p] == x;
    } else {
      RunIdDescendingIsTotal();
      forall i | 0 <= i < |page| ensures Le(x.runId, page[i].runId) {
        Sorting.SortedPairwise(sorted, RunIdDescending, i, p);
      }
    }
  }

  /** With the default limit, a page of runs that match a workflow name and
      status lists at most 100 of them, and `hasMore` flags the rest. */
  lemma ListRunsDefaultLimit(s: Store, params: Params)
    requires "limit" !in params
    ensures ListRuns(s, params).Success?
    ensures |ListRuns(s, params).value.data| <= 100
    ensures ListRuns(s, params).value.hasMore <==> |MatchingRuns(s, params)| > 100
  {
  }

  // ===========================================================================
  // Steps

  /** The map key of a step, `${runId}-${stepId}`. */
  function StepKey(runId: Option<string>, stepId: Option<string>): string {
    JsStr(runId) + "-" + JsStr(stepId)
  }

  /** Run ids and step ids without `-` never collide under `StepKey`. */
  lemma StepKeyInjective(r1: string, s1: string, r2: string, s2: string)
    requires '-' !in r1 && '-' !in r2
    requires StepKey(Some(r1), Some(s1)) == StepKey(Some(r2), Some(s2))
    ensures r1 == r2 && s1 == s2
  {
    var k := StepKey(Some(r1), Some(s1));
    assert k == r1 + ['-'] + s1 && k == r2 + ['-'] + s2;
    SplitCons(r1, s1, '-');
    SplitCons(r2, s2, '-');
    assert Split(k, '-')[0] == r1 && Split(k, '-')[0] == r2;
    assert s1 == k[|r1| + 1..];
  }

  /** A run id that contains `-` can share a key with another run's step. */
  lemma StepKeyCollision()
    ensures StepKey(Some("a-b"), Some("c")) == StepKey(Some("a"), Some("b-c"))
  {
  }

  /** `createStep`: stores a pending step with no attempts under its key,
      replacing any step already stored under that key. */
  function CreateStep(s: Store, runId: Option<string>, data: Data, now: int): (r: (Store, Step))
    ensures r.1.id == StepKey(runId, data.stepId)
    ensures r.1.runId == runId && r.1.stepId == data.stepId && r.1.stepName == data.stepName
    ensures r.1.status == "pending" && r.1.attempt == 0
    ensures r.1.startedAt.None? && r.1.completedAt.None?
    ensures r.1.input == data.input.GetOr([])
    ensures r.1.createdAt == now && r.1.updatedAt == now
    ensures Get(r.0.steps, r.1.id) == Some(r.1)
    ensures forall k :: k != r.1.id ==> Get(r.0.steps, k) == Get(s.steps, k)
    ensures r.0 == s.(steps := r.0.steps)
  {
    var id := StepKey(runId, data.stepId);
    var step := Step(id, runId, data.stepId, data.stepName, "pending", data.input.GetOr([]),
                     None, None, 0, None, None, now, now);
    (s.(steps := Set(s.steps, id, step)), step)
  }

  /** `getStep`: the step stored under `${runId}-${stepId}`, or
      `Step <stepId> not found`. */
  function GetStep(s: Store, runId: string, stepId: Option<string>): (r: Result<Step, Error>)
    ensures r.Success? <==> StepKey(Some(runId), stepId) in Keys(s.steps)
    ensures r.Success? ==> Get(s.steps, StepKey(Some(runId), stepId)) == Some(r.value)
    ensures r.Failure? ==> r.error == StepNotFound(JsStr(stepId))
  {
    var step := Get(s.steps, StepKey(Some(runId), stepId));
    if step.Some? then Success(step.value) else Failure(StepNotFound(JsStr(stepId)))
  }

  /** `Object.assign(step, data)` for the step fields a body can carry. */
  function AssignStep(step: Step, data: Data): Step {
    step.(runId := if data.runId.Some? then data.runId else step.runId,
          stepId := if data.stepId.Some? then data.stepId else step.stepId,
          stepName := if data.stepName.Some? then data.stepName else step.stepName,
          status := data.status.GetOr(step.status),
          input := data.input.GetOr(step.input),
          output := if data.output.Some? then data.output else step.output,
          error := if data.error.Some? then data.error else step.error,
          attempt := data.attempt.GetOr(step.attempt))
  }

  /** `updateStep`: like `updateRun` for steps, with `completed` and `failed`
      as the terminal statuses and no hook clean-up. `attempt` changes only
      when the body carries it. */
  function UpdateStep(s: Store, runId: string, stepId: Option<string>, data: Data, now: int)
    : (r: (Store, Result<Step, Error>))
    ensures StepKey(Some(runId), stepId) !in Keys(s.steps) ==>
              r == (s, Failure(StepNotFound(JsStr(stepId))))
    ensures StepKey(Some(runId), stepId) in Keys(s.steps) ==> r.1.Success?
    ensures r.1.Success? ==>
      var key := StepKey(Some(runId), stepId);
      var prev := Get(s.steps, key).value;
      var next := r.1.value;
      && next.status == data.status.GetOr(prev.status)
      && next.attempt == data.attempt.GetOr(prev.attempt)
      && next.id == prev.id
      && next.runId == (if data.runId.Some? then data.runId else prev.runId)
      && next.stepId == (if data.stepId.Some? then data.stepId else prev.stepId)
      && next.stepName == (if data.stepName.Some? then data.stepName else prev.stepName)
      && next.input == data.input.GetOr(prev.input)
      && next.output == (if data.output.Some? then data.output else prev.output)
      && next.error == (if data.error.Some? then data.error else prev.error)
      && next.startedAt == (if data.status == Some(RunningStatus) && prev.startedAt.None?
                           then Some(now) else prev.startedAt)
      && next.completedAt == (if IsTerminalStepStatus(data.status) then Some(now) else prev.completedAt)
      && next.updatedAt == now
      && next.createdAt == prev.createdAt
      && Get(r.0.steps, key) == Some(next)
      && (forall k :: k != key ==> Get(r.0.steps, k) == Get(s.steps, k))
      && r.0 == s.(steps := r.0.steps)
  {
    match GetStep(s, runId, stepId)
    case Failure(e) => (s, Failure(e))
    case Success(step) =>
      var started := if data.status == Some(RunningStatus) && step.startedAt.None?
                     then step.(startedAt := Some(now)) else step;
      var stamped := if IsTerminalStepStatus(data.status) then started.(completedAt := Some(now)) else started;
      var updated := AssignStep(stamped, data).(updatedAt := now);
      (s.(steps := Set(s.steps, StepKey(Some(runId), stepId), updated)), Success(updated))
  }

  predicate CreatedNoLater(a: Step, b: Step) {
    a.createdAt <= b.createdAt
  }

  lemma CreatedNoLaterIsOrder()
    ensures Sorting.Total(CreatedNoLater)
    ensures Sorting.Transitive(CreatedNoLater)
  {
  }

  /** The test `step.runId === runId`. */
  function OfRun(runId: string): Step -> bool {
    (st: Step) => st.runId == Some(runId)
  }

  datatype StepPage = StepPage(data: seq<Step>, hasMore: bool)

  /** `listSteps`: every step of the run, oldest first, in one page. */
  function ListSteps(s: Store, runId: string): (r: StepPage)
    ensures !r.hasMore
    ensures forall i :: 0 <= i < |r.data| ==> r.data[i].runId == Some(runId)
    ensures multiset(r.data) == multiset(Seqs.Filter(Values(s.steps), OfRun(runId)))
    ensures forall i, j :: 0 <= i < j < |r.data| ==> r.data[i].createdAt <= r.data[j].createdAt
    ensures forall st :: Seqs.Filter(r.data, Sorting.Ties(CreatedNoLater, st))
                         == Seqs.Filter(Seqs.Filter(Values(s.steps), OfRun(runId)), Sorting.Ties(CreatedNoLater, st))
  {
    var mine := Seqs.Filter(Values(s.steps), OfRun(runId));
    CreatedNoLaterIsOrder();
    var sorted := Sorting.Sort(mine, CreatedNoLater);
    Sorting.SortPreserves(mine, CreatedNoLater, OfRun(runId));
    forall i, j | 0 <= i < j < |sorted| ensures sorted[i].createdAt <= sorted[j].createdAt {
      Sorting.SortedPairwise(sorted, CreatedNoLater, i, j);
    }
    StepPage(sorted, false)
  }

  // ===========================================================================
  // Events

  /** `createEvent`: appends an event whose payload is `payload`, else the
      legacy `eventData`, else `{}`. */
  function CreateEvent(s: Store, runId: Option<string>, data: Data, eventId: string, now: int)
    : (r: (Store, Event))
    ensures r.1.eventId == eventId && r.1.runId == runId && r.1.createdAt == now
    ensures r.1.eventType == data.eventType && r.1.correlationId == data.correlationId
    ensures Defined(data.payload) ==> r.1.payload == data.payload.value
    ensures !Defined(data.payload) && Defined(data.eventData) ==> r.1.payload == data.eventData.value
    ensures !Defined(data.payload) && !Defined(data.eventData) ==> r.1.payload == EmptyObject
    ensures |r.0.events| == |s.events| + 1 && r.0.events[..|s.events|] == s.events
    ensures r.0.events[|s.events|] == r.1
    ensures r.0 == s.(events := r.0.events)
  {
    var event := Event(eventId, runId, data.eventType, data.correlationId,
                       Or(data.payload, Or(data.eventData, EmptyObject)), now);
    assert (s.events + [event])[..|s.events|] == s.events;
    (s.(events := s.events + [event]), event)
  }

  predicate EventIdNoLater(a: Event, b: Event) {
    Le(a.eventId, b.eventId)
  }

  /** The test `e.runId === runId`. */
  function EventOfRun(runId: string): Event -> bool {
    (e: Event) => e.runId == Some(runId)
  }

  /** `listEvents`: the run's events in ascending id order. */
  function ListEvents(s: Store, runId: string): (r: seq<Event>)
    ensures forall i :: 0 <= i < |r| ==> r[i].runId == Some(runId)
    ensures multiset(r) == multiset(Seqs.Filter(s.events, EventOfRun(runId)))
    ensures forall i, j :: 0 <= i < j < |r| ==> Le(r[i].eventId, r[j].eventId)
  {
    forall a: Event, b: Event ensures EventIdNoLater(a, b) || EventIdNoLater(b, a) {
      LeTotal(a.eventId, b.eventId);
    }
    forall a: Event, b: Event, c: Event | EventIdNoLater(a, b) && EventIdNoLater(b, c)
      ensures EventIdNoLater(a, c)
    {
      LeTransitive(a.eventId, b.eventId, c.eventId);
    }
    var mine := Seqs.Filter(s.events, EventOfRun(runId));
    var sorted := Sorting.Sort(mine, EventIdNoLater);
    forall i, j | 0 <= i < j < |sorted| ensures Le(sorted[i].eventId, sorted[j].eventId) {
      Sorting.SortedPairwise(sorted, EventIdNoLater, i, j);
    }
    assert forall i :: 0 <= i < |sorted| ==> sorted[i] in multiset(mine);
    sorted
  }

  // ===========================================================================
  // Hooks

  /** `createHook`: stores a hook under the body's `hookId`, or under the fresh
      id when the body has none. */
  function CreateHook(s: Store, runId: Option<string>, data: Data, freshId: string, now: int)
    : (r: (Store, Hook))
    ensures r.1.hookId == OrString(data.hookId, freshId)
    ensures r.1.runId == runId && r.1.token == data.token
    ensures r.1.metadata == Or(data.metadata, EmptyObject)
    ensures Get(r.0.hooks, r.1.hookId) == Some(r.1)
    ensures forall k :: k != r.1.hookId ==> Get(r.0.hooks, k) == Get(s.hooks, k)
    ensures r.0 == s.(hooks := r.0.hooks)
  {
    var hook := Hook(OrString(data.hookId, freshId), runId, data.token,
                     Or(data.metadata, EmptyObject), now, now);
    (s.(hooks := Set(s.hooks, hook.hookId, hook)), hook)
  }

  /** `getHookByToken`: the first hook, in insertion order, carrying `token`. */
  function GetHookByToken(s: Store, token: string): (r: Result<Hook, Error>)
    ensures r.Failure? <==> forall i :: 0 <= i < |s.hooks| ==> s.hooks[i].value.token != Some(token)
    ensures r.Failure? ==> r.error == HookNotFound
    ensures r.Success? ==> exists i :: 0 <= i < |s.hooks| && s.hooks[i].value == r.value
                             && r.value.token == Some(token)
                             && forall j :: 0 <= j < i ==> s.hooks[j].value.token != Some(token)
  {
    var vals := Values(s.hooks);
    var i := Seqs.FirstIndex(vals, (h: Hook) => h.token == Some(token));
    if i.Some? then Success(vals[i.value]) else Failure(HookNotFound)
  }

  // ===========================================================================
  // Properties across operations

  /** A run reads back as created. */
  lemma CreateThenGetRun(s: Store, runId: string, now: int, data: Data)
    ensures var (s', run) := CreateRun(s, runId, now, data);
      GetRun(s', runId) == Success(run)
  {
  }

  /** A step reads back under the ids it was created with. */
  lemma CreateThenGetStep(s: Store, runId: string, data: Data, now: int)
    requires data.stepId.Some?
    ensures var (s', step) := CreateStep(s, Some(runId), data, now);
      GetStep(s', runId, data.stepId) == Success(step)
  {
  }

  /** Once a run reaches a terminal status, no token lookup finds one of its
      hooks. */
  lemma TerminalRunHasNoHooks(s: Store, runId: string, data: Data, now: int, token: string)
    requires runId in Keys(s.runs)
    requires IsTerminalRunStatus(data.status)
    ensures var s' := UpdateRun(s, runId, data, now).0;
      GetHookByToken(s', token).Success? ==> !OwnedBy(GetHookByToken(s', token).value, runId)
  {
    var s' := UpdateRun(s, runId, data, now).0;
    var r := GetHookByToken(s', token);
    if r.Success? {
      var i :| 0 <= i < |s'.hooks| && s'.hooks[i].value == r.value;
      assert !OwnedBy(s'.hooks[i].value, runId);
    }
  }

  /** Status changes are not forced forward: a completed run can be set back to
      running, and it keeps its first `startedAt` while doing so. */
  lemma UpdateRunAllowsBackwardTransition(s: Store, runId: string, now: int)
    requires runId in Keys(s.runs)
    requires Get(s.runs, runId).value.status == "completed"
    ensures var r := UpdateRun(s, runId, NoData.(status := Some("running")), now).1;
      r.Success? && r.value.status == "running"
      && r.value.startedAt == (if Get(s.runs, runId).value.startedAt.Some?
                               then Get(s.runs, runId).value.startedAt else Some(now))
  {
  }

  /** A second terminal update stamps `completedAt` again, with the later time. */
  lemma UpdateRunRestampsCompletedAt(s: Store, runId: string, t1: int, t2: int)
    requires runId in Keys(s.runs)
    ensures var done := NoData.(status := Some("completed"));
      var s1 := UpdateRun(s, runId, done, t1).0;
      UpdateRun(s1, runId, done, t2).1.Success?
      && UpdateRun(s1, runId, done, t2).1.value.completedAt == Some(t2)
  {
  }

  /** A limit written as a non-zero decimal number is the page size. */
  lemma PageLimitOfDecimal(n: int)
    requires n != 0
    ensures PageLimit(map["limit" := DecimalString(n)]) == n
  {
    ParseDecimal(n);
  }

  /** An updated step reads back, as updated, under the same ids. */
  lemma UpdateThenGetStep(s: Store, runId: string, stepId: Option<string>, data: Data, now: int)
    requires StepKey(Some(runId), stepId) in Keys(s.steps)
    ensures var (s', res) := UpdateStep(s, runId, stepId, data, now);
      res.Success? && GetStep(s', runId, stepId) == res
  {
  }

  /** A created event is listed among its run's events: the listing after the
      create holds exactly one more copy of it than the listing before. */
  lemma CreateEventIsListed(s: Store, runId: string, data: Data, eventId: string, now: int)
    ensures var (s', e) := CreateEvent(s, Some(runId), data, eventId, now);
      && e in ListEvents(s', runId)
      && multiset(ListEvents(s', runId)) == multiset(ListEvents(s, runId)) + multiset{e}
  {
    var (s', e) := CreateEvent(s, Some(runId), data, eventId, now);
    assert s'.events == s.events + [e];
    Seqs.FilterSnoc(s.events, e, EventOfRun(runId));
    assert e in multiset(ListEvents(s', runId));
  }

  /** A hook created with a token no stored hook carries is what a lookup of
      that token finds. */
  lemma CreateThenGetHookByToken(s: Store, runId: Option<string>, data: Data, freshId: string, now: int,
                                 token: string)
    requires data.token == Some(token)
    requires forall i :: 0 <= i < |s.hooks| ==> s.hooks[i].value.token != Some(token)
    ensures var (s', h) := CreateHook(s, runId, data, freshId, now);
      GetHookByToken(s', token) == Success(h)
  {
    var h := CreateHook(s, runId, data, freshId, now).1;
    SetSoleHolder(s.hooks, h, token);
  }

  /** Setting a hook whose token no stored hook carries leaves it the only
      holder of that token. */
  lemma SetSoleHolder(hooks: Table<Hook>, h: Hook, token: string)
    requires h.token == Some(token)
    requires forall i :: 0 <= i < |hooks| ==> hooks[i].value.token != Some(token)
    ensures exists i :: 0 <= i < |Set(hooks, h.hookId, h)| && Set(hooks, h.hookId, h)[i].value == h
    ensures forall i :: 0 <= i < |Set(hooks, h.hookId, h)| && Set(hooks, h.hookId, h)[i].value.token == Some(token) ==>
              Set(hooks, h.hookId, h)[i].value == h
  {
    var t := Set(hooks, h.hookId, h);
    assert Get(t, h.hookId) == Some(h);
    GetHeld(t, h.hookId);
    var w :| 0 <= w < |t| && t[w] == Entry(h.hookId, h);
    assert t[w].value == h;
    SetHolds(hooks, h.hookId, h);
    forall i | 0 <= i < |t| && t[i].value.token == Some(token) ensures t[i].value == h {
      assert t[i] !in hooks;
    }
  }
}
