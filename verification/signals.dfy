/** The tester panel's view of a run: which signals each actor is being asked
    for, read off the run's event log, and the actor cards built from that. */
module Signals {
  import opened Wrappers
  import opened Json
  import opened Storage
  import Seqs
  import Text

  const SignalWaiting := "signal_waiting"
  const SignalReceived := "signal_received"

  /** Who an actor is; the chat tester routes messages by it. */
  datatype Role = User | Manager | System

  /** A signal an actor can send: its name, button label, the data the button
      sends, and the chat label, where `""` stands for an absent or empty one
      (the chat tester only reads it through `||`, which treats the two alike). */
  datatype SignalConfig = SignalConfig(name: string, buttonLabel: string, data: Option<Value>, chatLabel: string)

  /** An actor of the workflow. A missing `signals` list is the empty list:
      every reader coalesces it with `|| []` or `?.`. */
  datatype Actor = Actor(name: string, role: Role, signals: seq<SignalConfig>)

  /** A `signal_waiting` event for the signal called `name`. */
  function WaitsFor(name: string): Event -> bool {
    (e: Event) => e.eventType == Some(SignalWaiting) && Field(e.payload, "name") == Some(Str(name))
  }

  /** A `signal_received` event carrying correlation id `c` (which may be
      `undefined`, matching events that carry none). */
  function ReceivedFor(c: Option<string>): Event -> bool {
    (e: Event) => e.eventType == Some(SignalReceived) && e.correlationId == c
  }

  /** Some event of the log answers the wait with correlation id `c`. */
  predicate Answered(events: seq<Event>, c: Option<string>) {
    exists j :: 0 <= j < |events| && ReceivedFor(c)(events[j])
  }

  /** `getWaitingCorrelationId`: the correlation id of the newest wait for
      `name`, unless some received signal carries it. `None` stands for both
      `null` and `undefined`, which every caller treats alike. */
  function WaitingCorrelation(events: seq<Event>, name: string): (r: Option<string>)
    ensures r.Some? ==> exists i :: 0 <= i < |events| && WaitsFor(name)(events[i]) && events[i].correlationId == r
  {
    var lastWait := Seqs.Find(Seqs.Reverse(events), WaitsFor(name));
    var c := if lastWait.Some? then lastWait.value.correlationId else None;
    var lastReceived := Seqs.Find(Seqs.Reverse(events), ReceivedFor(c));
    Seqs.FindReversed(events, WaitsFor(name));
    if lastWait.None? then None
    else if lastReceived.Some? then None
    else c
  }

  /** With `events[i]` the newest wait for `name`, the awaited correlation id
      is that wait's, unless a received signal anywhere in the log carries it. */
  lemma WaitingCorrelationIsNewestOpenWait(events: seq<Event>, name: string, i: nat)
    requires i < |events| && WaitsFor(name)(events[i])
    requires forall j :: i < j < |events| ==> !WaitsFor(name)(events[j])
    ensures WaitingCorrelation(events, name)
            == if Answered(events, events[i].correlationId) then None else events[i].correlationId
  {
    Seqs.FindReversed(events, WaitsFor(name));
    var c := events[i].correlationId;
    Seqs.FindReversed(events, ReceivedFor(c));
    if Answered(events, c) {
      var j :| 0 <= j < |events| && ReceivedFor(c)(events[j]);
    }
  }

  /** `!!s.correlationId`: a correlation id is usable when it is a non-empty
      string. */
  predicate Usable(c: Option<string>) {
    c.Some? && c.value != ""
  }

  /** The signal is being waited for, under a usable correlation id. */
  function Awaited(events: seq<Event>): SignalConfig -> bool {
    (s: SignalConfig) => Usable(WaitingCorrelation(events, s.name))
  }

  /** A button on an actor card: pressing it sends `signal` with
      `correlationId`. */
  datatype ActorAction = ActorAction(buttonLabel: string, signal: SignalConfig, correlationId: string)

  /** The signals the buttons send, in button order. */
  function SignalsOf(actions: seq<ActorAction>): (r: seq<SignalConfig>)
    ensures |r| == |actions|
  {
    if |actions| == 0 then [] else [actions[0].signal] + SignalsOf(actions[1..])
  }

  /** The buttons of an actor's card: one per signal being waited for, in
      declaration order, each carrying the awaited correlation id. */
  function Actions(signals: seq<SignalConfig>, events: seq<Event>): (r: seq<ActorAction>)
    ensures |r| <= |signals|
    ensures forall k :: 0 <= k < |r| ==>
              && r[k].buttonLabel == r[k].signal.buttonLabel
              && WaitingCorrelation(events, r[k].signal.name) == Some(r[k].correlationId)
              && r[k].correlationId != ""
  {
    if |signals| == 0 then []
    else
      var s := signals[0];
      var c := WaitingCorrelation(events, s.name);
      var rest := Actions(signals[1..], events);
      if Usable(c) then [ActorAction(s.buttonLabel, s, c.value)] + rest else rest
  }

  /** The buttons are exactly the awaited signals, in declaration order. */
  lemma {:induction false} ActionsAreAwaitedSignals(signals: seq<SignalConfig>, events: seq<Event>)
    ensures SignalsOf(Actions(signals, events)) == Seqs.Filter(signals, Awaited(events))
  {
    if |signals| > 0 {
      ActionsAreAwaitedSignals(signals[1..], events);
      var r := Actions(signals, events);
      if Awaited(events)(signals[0]) {
        assert r[1..] == Actions(signals[1..], events);
      }
    }
  }

  /** An actor card: whether the actor is waited on, its buttons, and the
      status line naming the first of them. */
  datatype Card = Card(name: string, role: Role, isWaiting: bool, actions: seq<ActorAction>, status: Option<string>)

  function CardOf(actor: Actor, events: seq<Event>): (c: Card)
    ensures c.actions == Actions(actor.signals, events)
    ensures c.isWaiting <==> |c.actions| > 0
    ensures c.isWaiting <==> Seqs.FirstIndex(actor.signals, Awaited(events)).Some?
    ensures c.status
            == var first := Seqs.FirstIndex(actor.signals, Awaited(events));
               if first.Some? then Some("Needs to " + Text.ToLower(actor.signals[first.value].buttonLabel)) else None
  {
    var actions := Actions(actor.signals, events);
    ActionsAreAwaitedSignals(actor.signals, events);
    Seqs.FilterHeadIsFirst(actor.signals, Awaited(events));
    var status := if |actions| > 0 then Some("Needs to " + Text.ToLower(actions[0].buttonLabel)) else None;
    Card(actor.name, actor.role, |actions| > 0, actions, status)
  }
}
