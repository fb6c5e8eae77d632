/** `processWaits`: resolves sleeps whose time has come. Each due
    `wait_created` event without a matching `wait_completed` gets one, and its
    run is sent a continuation message on the run's workflow queue. */
module Waits {
  import opened Wrappers
  import opened Json
  import opened Text
  import opened Table
  import opened Storage
  import opened Service
  import opened MessageQueue
  import Seqs

  const WaitCreated := "wait_created"
  const WaitCompleted := "wait_completed"

  /** The queue a workflow's continuation messages go to. */
  function WorkflowQueue(workflowName: Option<string>): (name: string)
    ensures StartsWith(name, "__wkf_workflow_")
    ensures name[|"__wkf_workflow_"|..] == JsStr(workflowName)
  {
    "__wkf_workflow_" + JsStr(workflowName)
  }

  /** A `wait_created` event whose `resumeAt` is a valid date no later than `now`. */
  predicate Due(e: Event, now: int, parse: string -> Option<int>) {
    && e.eventType == Some(WaitCreated)
    && var t := DateMillis(Field(e.payload, "resumeAt"), parse);
       t.Some? && t.value <= now
  }

  function DueAt(now: int, parse: string -> Option<int>): Event -> bool {
    (e: Event) => Due(e, now, parse)
  }

  /** A `wait_created` event whose payload is `null`: reading its `resumeAt`
      throws. */
  predicate NullWait(e: Event) {
    e.eventType == Some(WaitCreated) && e.payload == Null
  }

  /** The log holds a `wait_completed` for the wait `(runId, correlationId)`. */
  predicate CompletedFor(events: seq<Event>, runId: Option<string>, correlationId: Option<string>) {
    exists i :: 0 <= i < |events| && events[i].eventType == Some(WaitCompleted)
      && events[i].runId == runId && events[i].correlationId == correlationId
  }

  predicate Completed(events: seq<Event>, e: Event) {
    CompletedFor(events, e.runId, e.correlationId)
  }

  /** The continuation message body: the run's id, workflow name (left out
      when it has none), input and execution context. */
  function Continuation(run: Run): (v: Value)
    ensures Field(v, "runId") == Some(Str(run.runId))
    ensures Field(v, "input") == Some(Arr(run.input))
    ensures Field(v, "executionContext") == Some(run.executionContext)
    ensures AsString(Field(v, "workflowName")) == run.workflowName
  {
    var base := map["runId" := Str(run.runId), "input" := Arr(run.input),
                    "executionContext" := run.executionContext];
    if run.workflowName.Some? then Obj(base["workflowName" := Str(run.workflowName.value)])
    else Obj(base)
  }

  /** The continuation message for `run`: pending on the run's workflow queue,
      with no idempotency key, never attempted, due and stamped at `now`. */
  function ContinuationMessage(run: Run, messageId: string, now: int): QueueMessage {
    QueueMessage(messageId, Some(WorkflowQueue(run.workflowName)), Some(Continuation(run)), None,
                 Pending, 0, DefaultMaxAttempts, now, now, now, None)
  }

  /** The run an event refers to is stored. */
  predicate RunStored(s: Store, e: Event) {
    GetOpt(s.runs, e.runId).Some?
  }

  lemma CompletedGrows(a: seq<Event>, b: seq<Event>, e: Event)
    requires Completed(a, e)
    ensures Completed(a + b, e)
  {
    var i :| 0 <= i < |a| && a[i].eventType == Some(WaitCompleted)
             && a[i].runId == e.runId && a[i].correlationId == e.correlationId;
    assert (a + b)[i] == a[i];
  }

  /** The `wait_completed` event that resolves `e`. */
  function Resolution(e: Event, eventId: string, now: int): (ev: Event)
    ensures ev.eventType == Some(WaitCompleted) && ev.payload == EmptyObject && ev.createdAt == now
    ensures ev.runId == e.runId && ev.correlationId == e.correlationId
  {
    var data := NoData.(eventType := Some(WaitCompleted), correlationId := e.correlationId,
                        eventData := Some(EmptyObject));
    CreateEvent(EmptyStore(), e.runId, data, eventId, now).1
  }

  /** One turn of the loop for the due wait `e`: nothing when it is already
      completed, else its `wait_completed` event and, when its run is stored,
      a continuation message. */
  function ResolveOne(cur: Store, e: Event, eventId: string, messageId: string, now: int): (next: Store)
    ensures Completed(cur.events, e) ==> next == cur
    ensures !Completed(cur.events, e) ==>
      && next.events == cur.events + [Resolution(e, eventId, now)]
      && next.queue == cur.queue + (if GetOpt(cur.runs, e.runId).Some?
                                    then [ContinuationMessage(GetOpt(cur.runs, e.runId).value, messageId, now)]
                                    else [])
      && next == cur.(events := next.events, queue := next.queue)
  {
    if Completed(cur.events, e) then cur
    else
      var data := NoData.(eventType := Some(WaitCompleted), correlationId := e.correlationId,
                          eventData := Some(EmptyObject));
      var (logged, _) := CreateEvent(cur, e.runId, data, eventId, now);
      var run := GetOpt(logged.runs, e.runId);
      if run.Some? then
        var sent := Enqueue(logged, Some(WorkflowQueue(run.value.workflowName)), Some(Continuation(run.value)),
                            None, messageId, now).0;
        assert sent.queue == logged.queue + [ContinuationMessage(run.value, messageId, now)];
        sent
      else logged
  }

  /** What the appended part of the log looks like: only first resolutions of
      due waits. */
  ghost predicate OnlyResolutions(s: Store, events: seq<Event>, now: int, parse: string -> Option<int>)
    requires |s.events| <= |events|
  {
    forall j :: |s.events| <= j < |events| ==>
      && events[j].eventType == Some(WaitCompleted)
      && events[j].payload == EmptyObject
      && events[j].createdAt == now
      && !CompletedFor(events[..j], events[j].runId, events[j].correlationId)
      && exists d :: d in s.events && Due(d, now, parse)
           && d.runId == events[j].runId && d.correlationId == events[j].correlationId
  }

  lemma OnlyResolutionsStep(s: Store, events: seq<Event>, e: Event, ev: Event, now: int,
                            parse: string -> Option<int>)
    requires |s.events| <= |events|
    requires OnlyResolutions(s, events, now, parse)
    requires e in s.events && Due(e, now, parse) && !Completed(events, e)
    requires ev.eventType == Some(WaitCompleted) && ev.payload == EmptyObject && ev.createdAt == now
    requires ev.runId == e.runId && ev.correlationId == e.correlationId
    ensures OnlyResolutions(s, events + [ev], now, parse)
  {
    var next := events + [ev];
    forall j | |s.events| <= j < |next|
      ensures !CompletedFor(next[..j], next[j].runId, next[j].correlationId)
    {
      if j < |events| {
        assert next[..j] == events[..j];
      } else {
        assert next[..j] == events;
      }
    }
  }

  /** The stored runs the events `evs` refer to, in order, skipping events
      whose run is not stored. */
  function ContinuedRuns(s: Store, evs: seq<Event>): seq<Run> {
    if |evs| == 0 then []
    else
      var last := evs[|evs| - 1];
      ContinuedRuns(s, evs[..|evs| - 1])
        + (if RunStored(s, last) then [GetOpt(s.runs, last.runId).value] else [])
  }

  /** The continuation messages appended so far: the `k`-th is the
      continuation for the `k`-th appended resolution whose run is stored, and
      there are no others. Only the message ids are left free. */
  ghost predicate MessagePerStoredRun(s: Store, r: Store, now: int)
    requires |s.events| <= |r.events| && |s.queue| <= |r.queue|
  {
    var runs := ContinuedRuns(s, r.events[|s.events|..]);
    && |r.queue| - |s.queue| == |runs|
    && forall k :: 0 <= k < |runs| ==>
         r.queue[|s.queue| + k] == ContinuationMessage(runs[k], r.queue[|s.queue| + k].messageId, now)
  }

  lemma MessagePerStoredRunStep(s: Store, r: Store, next: Store, ev: Event, messageId: string, now: int)
    requires |s.events| <= |r.events| && |s.queue| <= |r.queue|
    requires MessagePerStoredRun(s, r, now)
    requires next.events == r.events + [ev]
    requires next.queue == r.queue + (if RunStored(s, ev)
                                      then [ContinuationMessage(GetOpt(s.runs, ev.runId).value, messageId, now)]
                                      else [])
    ensures |s.queue| <= |next.queue|
    ensures MessagePerStoredRun(s, next, now)
  {
    var added := r.events[|s.events|..];
    assert next.events[|s.events|..] == added + [ev];
    assert (added + [ev])[..|added|] == added;
    assert next.queue[..|r.queue|] == r.queue;
  }

  /** Every due wait of the original log is resolved. */
  ghost predicate AllDueResolved(s: Store, events: seq<Event>, now: int, parse: string -> Option<int>) {
    forall i :: 0 <= i < |s.events| && Due(s.events[i], now, parse) ==> Completed(events, s.events[i])
  }

  /** The loop invariant of `processWaits` after the first `k` due waits. */
  ghost predicate Progress(s: Store, r: Store, due: seq<Event>, k: nat, now: int, parse: string -> Option<int>) {
    && k <= |due|
    && r == s.(events := r.events, queue := r.queue)
    && s.events <= r.events && s.queue <= r.queue
    && OnlyResolutions(s, r.events, now, parse)
    && MessagePerStoredRun(s, r, now)
    && (forall j :: 0 <= j < k ==> Completed(r.events, due[j]))
    && (AllDueResolved(s, s.events, now, parse) ==> r == s)
  }

  /** A wait completed in a log stays completed in every extension of it. */
  lemma CompletedInExtension(a: seq<Event>, b: seq<Event>, e: Event)
    requires a <= b
    ensures Completed(a, e) ==> Completed(b, e)
  {
    if Completed(a, e) {
      CompletedGrows(a, b[|a|..], e);
      assert a + b[|a|..] == b;
    }
  }

  /** Appending the resolution of the `k`-th due wait completes the first
      `k + 1` due waits. */
  lemma CompletedStep(events: seq<Event>, due: seq<Event>, k: nat, ev: Event)
    requires k < |due| && forall j :: 0 <= j < k ==> Completed(events, due[j])
    requires ev.eventType == Some(WaitCompleted)
    requires ev.runId == due[k].runId && ev.correlationId == due[k].correlationId
    ensures forall j :: 0 <= j < k + 1 ==> Completed(events + [ev], due[j])
  {
    forall j | 0 <= j < k + 1 ensures Completed(events + [ev], due[j]) {
      if j < k {
        CompletedGrows(events, [ev], due[j]);
      } else {
        assert (events + [ev])[|events|] == ev;
      }
    }
  }

  /** A due wait of the original log still open in an extension of it means
      the original log had an open due wait. */
  lemma OpenWait(s: Store, events: seq<Event>, e: Event, now: int, parse: string -> Option<int>)
    requires s.events <= events
    requires e in s.events && Due(e, now, parse) && !Completed(events, e)
    ensures !AllDueResolved(s, s.events, now, parse)
  {
    CompletedInExtension(s.events, events, e);
    var i :| 0 <= i < |s.events| && s.events[i] == e;
  }

  /** The turn that resolves a wait not yet completed. */
  lemma ResolveStep(s: Store, r: Store, due: seq<Event>, k: nat, now: int, parse: string -> Option<int>,
                    eventId: string, messageId: string)
    requires Progress(s, r, due, k, now, parse) && k < |due|
    requires due[k] in s.events && Due(due[k], now, parse) && !Completed(r.events, due[k])
    ensures Progress(s, ResolveOne(r, due[k], eventId, messageId, now), due, k + 1, now, parse)
  {
    var e := due[k];
    var next := ResolveOne(r, e, eventId, messageId, now);
    var ev := Resolution(e, eventId, now);
    OnlyResolutionsStep(s, r.events, e, ev, now, parse);
    MessagePerStoredRunStep(s, r, next, ev, messageId, now);
    CompletedStep(r.events, due, k, ev);
    OpenWait(s, r.events, e, now, parse);
  }

  /** One turn of the loop keeps the invariant and adds one event exactly when
      the wait was not yet completed. */
  lemma ProgressStep(s: Store, r: Store, due: seq<Event>, k: nat, now: int, parse: string -> Option<int>,
                     eventId: string, messageId: string)
    requires Progress(s, r, due, k, now, parse) && k < |due|
    requires due[k] in s.events && Due(due[k], now, parse)
    ensures var next := ResolveOne(r, due[k], eventId, messageId, now);
      && Progress(s, next, due, k + 1, now, parse)
      && |next.events| == |r.events| + (if Completed(r.events, due[k]) then 0 else 1)
  {
    if !Completed(r.events, due[k]) {
      ResolveStep(s, r, due, k, now, parse, eventId, messageId);
    }
  }

  /** The due waits are due waits of the log. */
  lemma DueMember(s: Store, now: int, parse: string -> Option<int>, k: nat)
    requires k < |Seqs.Filter(s.events, DueAt(now, parse))|
    ensures var e := Seqs.Filter(s.events, DueAt(now, parse))[k];
      e in s.events && Due(e, now, parse)
  {
    var due := Seqs.Filter(s.events, DueAt(now, parse));
    assert due[k] in multiset(due);
  }

  /** Completing every filtered due wait completes every due wait of the log. */
  lemma DueCovered(s: Store, events: seq<Event>, due: seq<Event>, now: int, parse: string -> Option<int>)
    requires due == Seqs.Filter(s.events, DueAt(now, parse))
    requires forall j :: 0 <= j < |due| ==> Completed(events, due[j])
    ensures AllDueResolved(s, events, now, parse)
  {
    forall i | 0 <= i < |s.events| && Due(s.events[i], now, parse)
      ensures Completed(events, s.events[i])
    {
      assert s.events[i] in multiset(due);
      var j :| 0 <= j < |due| && due[j] == s.events[i];
    }
  }

  /** `processWaits`: over the due waits present at the start, in log order,
      appends a `wait_completed` (payload `{}`) for each wait not yet
      completed, enqueues a continuation for its run when the run exists, and
      counts every wait it completed, run or no run. The `k`-th due wait takes
      its event id from `ids(2k)` and its message id from `ids(2k + 1)`;
      `parse` reads date strings. A `null` wait payload throws before anything
      changes. */
  method ProcessWaits(s: Store, now: int, parse: string -> Option<int>, ids: nat -> string)
    returns (r: Store, processed: Result<nat, Error>)
    ensures processed.Failure? <==> exists i :: 0 <= i < |s.events| && NullWait(s.events[i])
    ensures processed.Failure? ==> r == s && processed.error == ResumeAtOfNull
    ensures r == s.(events := r.events, queue := r.queue)
    ensures s.events <= r.events && s.queue <= r.queue
    ensures processed.Success? ==> processed.value == |r.events| - |s.events|
    ensures OnlyResolutions(s, r.events, now, parse)
    ensures MessagePerStoredRun(s, r, now)
    ensures processed.Success? ==> AllDueResolved(s, r.events, now, parse)
    ensures AllDueResolved(s, s.events, now, parse) ==> r == s
  {
    if exists i :: 0 <= i < |s.events| && NullWait(s.events[i]) {
      return s, Failure(ResumeAtOfNull);
    }
    var due := Seqs.Filter(s.events, DueAt(now, parse));
    r := s;
    var count := 0;
    var k := 0;
    assert r.events[|s.events|..] == [];
    while k < |due|
      invariant Progress(s, r, due, k, now, parse)
      invariant count == |r.events| - |s.events|
    {
      DueMember(s, now, parse, k);
      ProgressStep(s, r, due, k, now, parse, ids(2 * k), ids(2 * k + 1));
      if !Completed(r.events, due[k]) {
        count := count + 1;
      }
      r := ResolveOne(r, due[k], ids(2 * k), ids(2 * k + 1), now);
      k := k + 1;
    }
    DueCovered(s, r.events, due, now, parse);
    processed := Success(count);
  }

  /** Resolutions are not due waits, so once a call has resolved every due
      wait, the next call at the same time finds nothing to do (and by
      `ProcessWaits`' last guarantee leaves the store as it is). */
  lemma {:induction false} SecondCallFindsNothing(s: Store, r: Store, now: int, parse: string -> Option<int>)
    requires s.events <= r.events
    requires OnlyResolutions(s, r.events, now, parse)
    requires AllDueResolved(s, r.events, now, parse)
    ensures AllDueResolved(r, r.events, now, parse)
  {
    forall i | 0 <= i < |r.events| && Due(r.events[i], now, parse)
      ensures Completed(r.events, r.events[i])
    {
      if i >= |s.events| {
        assert false;
      }
      assert r.events[i] == s.events[i];
    }
  }
}
