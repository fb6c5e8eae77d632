/** The chat tester: the run's event log replayed as two chat transcripts,
    one for the user and one for the back office, with buttons for the
    signals the run is waiting for. */
module Chat {
  import opened Wrappers
  import opened Json
  import opened Storage
  import opened Signals
  import Seqs
  import Text

  const StepCompleted := "step_completed"
  const ActionRequired := "Action required: "

  // ---------------------------------------------------------------------------
  // Finding the signal a received event answers

  /** `s.name === sigName`. */
  function Named(sigName: Option<Value>): SignalConfig -> bool {
    (s: SignalConfig) => sigName == Some(Str(s.name))
  }

  /** `a.signals?.some(s => s.name === sigName)`. */
  function Declares(sigName: Option<Value>): Actor -> bool {
    (a: Actor) => exists j :: 0 <= j < |a.signals| && Named(sigName)(a.signals[j])
  }

  /** `Object.keys(v)` of an object; every other value is taken to have none. */
  function ObjectKeys(v: Value): set<string> {
    if v.Obj? then v.fields.Keys else {}
  }

  /** A signal's configured data fits the data a received event carries: every
      configured field is strictly equal to the event's, and a signal with no
      configured fields fits only an event with none. Missing data on either
      side counts as `{}`. */
  predicate DataFits(config: Option<Value>, data: Option<Value>) {
    var configData := Or(config, EmptyObject);
    var eventData := Or(data, EmptyObject);
    var configKeys := ObjectKeys(configData);
    if configKeys == {} then ObjectKeys(eventData) == {}
    else forall k :: k in configKeys ==> StrictEquals(Field(eventData, k), Field(configData, k))
  }

  function FitsData(data: Option<Value>): SignalConfig -> bool {
    (s: SignalConfig) => DataFits(s.data, data)
  }

  /** The position, among the signals of one actor that share a name, of the
      one a received event is taken to answer: the only one, else the first
      whose data fits, else the first. */
  function BestMatch(matches: seq<SignalConfig>, data: Option<Value>): (k: nat)
    requires |matches| > 0
    ensures k < |matches|
    ensures |matches| == 1 ==> k == 0
    ensures |matches| > 1 ==> forall j :: 0 <= j < k ==> !FitsData(data)(matches[j])
    ensures |matches| > 1 && !FitsData(data)(matches[k]) ==>
              k == 0 && forall j :: 0 <= j < |matches| ==> !FitsData(data)(matches[j])
  {
    if |matches| == 1 then 0
    else
      var best := Seqs.FirstIndex(matches, FitsData(data));
      if best.Some? then best.value else 0
  }

  /** `findSignalDefinition`: the first actor declaring a signal called
      `sigName`, and which of its signals of that name the event answers. */
  function FindSignalDefinition(actors: seq<Actor>, sigName: Option<Value>, data: Option<Value>): (r: Option<(Actor, SignalConfig)>)
    ensures var owner := Seqs.FirstIndex(actors, Declares(sigName));
            && (r.None? <==> owner.None?)
            && (r.Some? ==>
                  var matches := Seqs.Filter(actors[owner.value].signals, Named(sigName));
                  && |matches| > 0
                  && r.value == (actors[owner.value], matches[BestMatch(matches, data)]))
  {
    if |actors| == 0 then None
    else
      var matches := Seqs.Filter(actors[0].signals, Named(sigName));
      DeclaresIffMatches(actors[0], sigName);
      if |matches| == 0 then FindSignalDefinition(actors[1..], sigName, data)
      else Some((actors[0], matches[BestMatch(matches, data)]))
  }

  /** An actor declares a name exactly when filtering its signals by that name
      keeps something. */
  lemma DeclaresIffMatches(a: Actor, sigName: Option<Value>)
    ensures Declares(sigName)(a) <==> |Seqs.Filter(a.signals, Named(sigName))| > 0
  {
    Seqs.FilterHeadIsFirst(a.signals, Named(sigName));
  }

  // ---------------------------------------------------------------------------
  // Humanizing signal names

  /** `\w`: an ASCII letter, digit or underscore. */
  predicate IsWordChar(c: char) {
    'a' <= c <= 'z' || 'A' <= c <= 'Z' || '0' <= c <= '9' || c == '_'
  }

  /** Position `i` of `s` starts a word, given whether the character before
      `s` is a word character. */
  predicate WordStartAfter(s: string, i: nat, afterWord: bool)
    requires i < |s|
  {
    IsWordChar(s[i]) && if i == 0 then !afterWord else !IsWordChar(s[i - 1])
  }

  /** Position `i` of `s` matches `\b\w`: a word character not preceded by one. */
  predicate WordStart(s: string, i: nat)
    requires i < |s|
  {
    WordStartAfter(s, i, false)
  }

  /** `replace(/[-_]/g, " ")`. */
  function SpaceSeparators(s: string): (r: string)
    ensures |r| == |s|
    ensures forall i :: 0 <= i < |s| ==> r[i] == if s[i] == '-' || s[i] == '_' then ' ' else s[i]
  {
    if |s| == 0 then "" else [if s[0] == '-' || s[0] == '_' then ' ' else s[0]] + SpaceSeparators(s[1..])
  }

  /** `replace(/\b\w/g, l => l.toUpperCase())`, scanning left to right with
      `afterWord` telling whether the character before `s` is a word
      character. */
  function CapitalizeWords(s: string, afterWord: bool): (r: string)
    ensures |r| == |s|
    ensures forall i :: 0 <= i < |s| ==>
              r[i] == if WordStartAfter(s, i, afterWord) then Text.UpperChar(s[i]) else s[i]
  {
    if |s| == 0 then ""
    else
      var c := if IsWordChar(s[0]) && !afterWord then Text.UpperChar(s[0]) else s[0];
      var rest := CapitalizeWords(s[1..], IsWordChar(s[0]));
      var r := [c] + rest;
      assert forall i :: 1 <= i < |s| ==> s[1..][i - 1] == s[i] && r[i] == rest[i - 1];
      r
  }

  /** `humanize`: separators become spaces and every word starts upper-case. */
  function Humanize(s: string): (r: string)
    ensures s == "" ==> r == ""
    ensures |r| == |s|
    ensures forall i :: 0 <= i < |s| ==>
              r[i] == var t := SpaceSeparators(s); if WordStart(t, i) then Text.UpperChar(t[i]) else t[i]
  {
    if s == "" then ""
    else
      var t := SpaceSeparators(s);
      var r := CapitalizeWords(t, false);
      r
  }

  /** Upper-casing keeps a character a word character, and the other way round. */
  lemma UpperKeepsWordChar(c: char)
    ensures IsWordChar(Text.UpperChar(c)) == IsWordChar(c)
    ensures Text.UpperChar(c) != '-' && Text.UpperChar(c) != '_' ==> c != '-' && c != '_'
    ensures Text.UpperChar(Text.UpperChar(c)) == Text.UpperChar(c)
    ensures !('a' <= Text.UpperChar(c) <= 'z')
  {
  }

  /** A humanized name has no separators left, and each of its words starts
      with no lower-case letter. */
  lemma HumanizeShape(s: string)
    ensures forall i :: 0 <= i < |Humanize(s)| ==> Humanize(s)[i] != '-' && Humanize(s)[i] != '_'
    ensures forall i :: 0 <= i < |Humanize(s)| && WordStart(Humanize(s), i) ==> !('a' <= Humanize(s)[i] <= 'z')
  {
    var t := SpaceSeparators(s);
    var r := Humanize(s);
    forall i | 0 <= i < |r| ensures r[i] != '-' && r[i] != '_' && IsWordChar(r[i]) == IsWordChar(t[i]) {
      UpperKeepsWordChar(t[i]);
    }
    forall i | 0 <= i < |r| && WordStart(r, i) ensures !('a' <= r[i] <= 'z') {
      UpperKeepsWordChar(t[i]);
      assert WordStart(t, i);
    }
  }

  /** Humanizing twice changes nothing more. */
  lemma HumanizeIdempotent(s: string)
    ensures Humanize(Humanize(s)) == Humanize(s)
  {
    var t := SpaceSeparators(s);
    var r := Humanize(s);
    HumanizeShape(s);
    forall i | 0 <= i < |r| ensures IsWordChar(r[i]) == IsWordChar(t[i]) {
      UpperKeepsWordChar(t[i]);
    }
    assert SpaceSeparators(r) == r;
    forall i | 0 <= i < |r| ensures Humanize(r)[i] == r[i] {
      UpperKeepsWordChar(t[i]);
      assert WordStart(r, i) <==> WordStart(t, i);
    }
  }

  // ---------------------------------------------------------------------------
  // The transcripts

  /** A button in the chat: pressing it sends `signal` with `correlationId`. */
  datatype ChatAction = ChatAction(buttonLabel: string, disabled: bool, correlationId: Option<string>, signal: SignalConfig)

  /** A chat bubble. `text` is whatever the event carried, which is not
      always a string. */
  datatype ChatMessage = ChatMessage(id: string, sender: Role, text: Option<Value>, timestamp: int, actions: Option<seq<ChatAction>>)

  /** The user's and the back office's transcripts. */
  datatype Transcript = Transcript(user: seq<ChatMessage>, manager: seq<ChatMessage>)

  /** The user's list when `toUser`, the back office's otherwise. */
  function ListOf(t: Transcript, toUser: bool): seq<ChatMessage> {
    if toUser then t.user else t.manager
  }

  function WithList(t: Transcript, toUser: bool, l: seq<ChatMessage>): (r: Transcript)
    ensures ListOf(r, toUser) == l && ListOf(r, !toUser) == ListOf(t, !toUser)
  {
    if toUser then t.(user := l) else t.(manager := l)
  }

  /** A `step_completed` event whose output names a target posts the output's
      text as a system message to that side's transcript. */
  function OnStepCompleted(t: Transcript, e: Event): (r: Transcript)
    ensures var output := Field(e.payload, "output");
            var target := FieldOf(output, "target");
            var msg := ChatMessage(e.eventId, System, FieldOf(output, "text"), e.createdAt, None);
            && (IsString(target, "user") ==> r == Transcript(t.user + [msg], t.manager))
            && (IsString(target, "manager") ==> r == Transcript(t.user, t.manager + [msg]))
            && (!IsString(target, "user") && !IsString(target, "manager") ==> r == t)
  {
    var output := Field(e.payload, "output");
    var target := FieldOf(output, "target");
    if !Defined(target) then t
    else
      var msg := ChatMessage(e.eventId, System, FieldOf(output, "text"), e.createdAt, None);
      var t1 := if IsString(target, "user") then t.(user := t.user + [msg]) else t;
      if IsString(target, "manager") then t1.(manager := t1.manager + [msg]) else t1
  }

  /** A `signal_waiting` event with correlation id `c`. */
  function WaitWith(c: Option<string>): Event -> bool {
    (e: Event) => e.correlationId == c && e.eventType == Some(SignalWaiting)
  }

  /** A message offering a button for correlation id `c`. */
  function Offers(c: Option<string>): ChatMessage -> bool {
    (m: ChatMessage) =>
      m.actions.Some? && exists k :: 0 <= k < |m.actions.value| && m.actions.value[k].correlationId == c
  }

  function DisableAll(actions: seq<ChatAction>): (r: seq<ChatAction>)
    ensures |r| == |actions|
    ensures forall k :: 0 <= k < |r| ==> r[k] == actions[k].(disabled := true)
  {
    seq(|actions|, k requires 0 <= k < |actions| => actions[k].(disabled := true))
  }

  /** Disables every button of the first message on one side that offers a
      button for correlation id `c`. */
  function DisableOffer(t: Transcript, toUser: bool, c: Option<string>): (r: Transcript)
    ensures ListOf(r, !toUser) == ListOf(t, !toUser)
    ensures |ListOf(r, toUser)| == |ListOf(t, toUser)|
    ensures forall i :: 0 <= i < |ListOf(t, toUser)| ==>
              ListOf(r, toUser)[i].(actions := None) == ListOf(t, toUser)[i].(actions := None)
    ensures forall i :: 0 <= i < |ListOf(t, toUser)| && ListOf(t, toUser)[i].actions.None? ==>
              ListOf(r, toUser)[i] == ListOf(t, toUser)[i]
    ensures SidesKept(t) ==> SidesKept(r)
    ensures Seqs.FirstIndex(ListOf(t, toUser), Offers(c)).None? ==> r == t
    ensures Seqs.FirstIndex(ListOf(t, toUser), Offers(c)).Some? ==>
              var l := ListOf(t, toUser);
              var i := Seqs.FirstIndex(l, Offers(c)).value;
              && ListOf(r, toUser)[i].actions == Some(DisableAll(l[i].actions.value))
              && forall j :: 0 <= j < |l| && j != i ==> ListOf(r, toUser)[j] == l[j]
  {
    var list := ListOf(t, toUser);
    var source := Seqs.FirstIndex(list, Offers(c));
    if source.None? then t
    else
      var m := list[source.value];
      WithList(t, toUser, list[source.value := m.(actions := Some(DisableAll(m.actions.value)))])
  }

  /** The bubble text of an answered signal: its chat label, else its label,
      else its humanized name. */
  function AnswerText(signal: SignalConfig): string {
    if signal.chatLabel != "" then signal.chatLabel
    else if signal.buttonLabel != "" then signal.buttonLabel
    else Humanize(signal.name)
  }

  /** Appends `msg` to the user's side for a user, to the back office's for a
      manager, and nowhere for a system actor. */
  function PostAs(t: Transcript, role: Role, msg: ChatMessage): (r: Transcript)
    ensures r.user == if role == User then t.user + [msg] else t.user
    ensures r.manager == if role == Manager then t.manager + [msg] else t.manager
    ensures SidesKept(t) && msg.sender == role ==> SidesKept(r)
  {
    if role == User then t.(user := t.user + [msg])
    else if role == Manager then t.(manager := t.manager + [msg])
    else t
  }

  /** The actor and signal a received event answers: the signal named by the
      first wait in the whole log `all` with the event's correlation id. */
  function AnswerOf(all: seq<Event>, actors: seq<Actor>, e: Event): Option<(Actor, SignalConfig)> {
    var wait := Seqs.Find(all, WaitWith(e.correlationId));
    if wait.None? then None
    else FindSignalDefinition(actors, Field(wait.value.payload, "name"), Some(e.payload))
  }

  /** A `signal_received` event: the actor who sent it says so on their side,
      and the buttons that asked for it are disabled. A user's answer goes to
      the user's side; any other actor's is looked for on the back office's.
      Only buttons of earlier messages change. */
  function OnSignalReceived(all: seq<Event>, actors: seq<Actor>, t: Transcript, e: Event): (r: Transcript)
    ensures var answer := AnswerOf(all, actors, e);
            && (answer.None? ==> r == t)
            && |r.user| == |t.user| + (if answer.Some? && answer.value.0.role == User then 1 else 0)
            && |r.manager| == |t.manager| + (if answer.Some? && answer.value.0.role == Manager then 1 else 0)
    ensures SidesKept(t) ==> SidesKept(r)
  {
    var answer := AnswerOf(all, actors, e);
    if answer.None? then t
    else
      var (actor, signal) := answer.value;
      // `signal.name === sigName`, so humanizing either gives the same text
      var msg := ChatMessage(e.eventId, actor.role, Some(Str(AnswerText(signal))), e.createdAt, None);
      var t1 := PostAs(t, actor.role, msg);
      DisableOffer(t1, actor.role == User, e.correlationId)
  }

  /** The sending actor's answer is the newest message on their side. */
  lemma ReceivedPostsAnswer(all: seq<Event>, actors: seq<Actor>, t: Transcript, e: Event)
    ensures var answer := AnswerOf(all, actors, e);
            var r := OnSignalReceived(all, actors, t, e);
            answer.Some? && answer.value.0.role != System ==>
              var l := ListOf(r, answer.value.0.role == User);
              l[|l| - 1] == ChatMessage(e.eventId, answer.value.0.role, Some(Str(AnswerText(answer.value.1))), e.createdAt, None)
  {
    var answer := AnswerOf(all, actors, e);
    if answer.Some? && answer.value.0.role != System {
      var (actor, signal) := answer.value;
      var msg := ChatMessage(e.eventId, actor.role, Some(Str(AnswerText(signal))), e.createdAt, None);
      var l := ListOf(t, actor.role == User) + [msg];
      assert l[|l| - 1].actions.None?;
    }
  }

  /** A received signal changes nothing but buttons in the messages already
      there. */
  lemma ReceivedChangesOnlyButtons(all: seq<Event>, actors: seq<Actor>, t: Transcript, e: Event)
    ensures var r := OnSignalReceived(all, actors, t, e);
            && (forall i :: 0 <= i < |t.user| ==> r.user[i].(actions := None) == t.user[i].(actions := None))
            && (forall i :: 0 <= i < |t.manager| ==> r.manager[i].(actions := None) == t.manager[i].(actions := None))
  {
    var answer := AnswerOf(all, actors, e);
    if answer.Some? {
      var (actor, signal) := answer.value;
      var msg := ChatMessage(e.eventId, actor.role, Some(Str(AnswerText(signal))), e.createdAt, None);
      var t1 := PostAs(t, actor.role, msg);
      assert forall i :: 0 <= i < |t.user| ==> t1.user[i] == t.user[i];
      assert forall i :: 0 <= i < |t.manager| ==> t1.manager[i] == t.manager[i];
    }
  }

  /** The buttons offered for a wait: one per signal of that name, disabled
      when the wait has been answered. */
  function OfferedActions(matches: seq<SignalConfig>, disabled: bool, c: Option<string>): (r: seq<ChatAction>)
    ensures |r| == |matches|
    ensures forall k :: 0 <= k < |r| ==> r[k] == ChatAction(matches[k].buttonLabel, disabled, c, matches[k])
  {
    seq(|matches|, k requires 0 <= k < |matches| => ChatAction(matches[k].buttonLabel, disabled, c, matches[k]))
  }

  /** The last message of a list can take buttons: a system message that has
      none yet. */
  predicate TakesButtons(l: seq<ChatMessage>) {
    |l| > 0 && l[|l| - 1].sender == System && l[|l| - 1].actions.None?
  }

  /** Puts `actions` on the last message of `l` when it takes buttons, and
      otherwise on a new system message with the given id, text and time. */
  function Offer(l: seq<ChatMessage>, actions: seq<ChatAction>, id: string, text: string, timestamp: int): (r: seq<ChatMessage>)
    ensures |r| == if TakesButtons(l) then |l| else |l| + 1
    ensures forall i :: 0 <= i < |r| - 1 ==> r[i] == l[i]
    ensures r[|r| - 1].sender == System && r[|r| - 1].actions == Some(actions)
    ensures TakesButtons(l) ==> r[|r| - 1] == l[|l| - 1].(actions := Some(actions))
    ensures !TakesButtons(l) ==> r[|r| - 1] == ChatMessage(id, System, Some(Str(text)), timestamp, Some(actions))
  {
    if TakesButtons(l) then l[|l| - 1 := l[|l| - 1].(actions := Some(actions))]
    else l + [ChatMessage(id, System, Some(Str(text)), timestamp, Some(actions))]
  }

  /** A `signal_waiting` event: the first actor declaring the signal is asked
      for it, by buttons on the last system message of their side or on a new
      "Action required" message. */
  function OnSignalWaiting(all: seq<Event>, actors: seq<Actor>, t: Transcript, e: Event): (r: Transcript)
    ensures var sigName := Field(e.payload, "name");
            var owner := Seqs.FirstIndex(actors, Declares(sigName));
            && (owner.None? ==> r == t)
            && (owner.Some? ==> Asked(t, r, actors[owner.value], sigName, e, Answered(all, e.correlationId)))
  {
    var sigName := Field(e.payload, "name");
    var owner := Seqs.FirstIndex(actors, Declares(sigName));
    if owner.None? then t
    else
      DeclaresIffMatches(actors[owner.value], sigName);
      Ask(t, actors[owner.value], sigName, e, Answered(all, e.correlationId))
  }

  /** How asking `actor` for the signal `sigName` of the wait `e` changes the
      transcript `t` into `r`: only the actor's side changes; its last message
      takes the buttons and keeps its id, text and time when it takes
      buttons, and otherwise a new "Action required" system message with the
      event's id and time carries them. */
  predicate Asked(t: Transcript, r: Transcript, actor: Actor, sigName: Option<Value>, e: Event, answered: bool) {
    var toUser := actor.role == User;
    var l0 := ListOf(t, toUser);
    var l1 := ListOf(r, toUser);
    var matches := Seqs.Filter(actor.signals, Named(sigName));
    && ListOf(r, !toUser) == ListOf(t, !toUser)
    && |l1| == (if TakesButtons(l0) then |l0| else |l0| + 1)
    && (forall i :: 0 <= i < |l1| - 1 ==> l1[i] == l0[i])
    && |l1| > 0
    && l1[|l1| - 1].sender == System
    && l1[|l1| - 1].actions == Some(OfferedActions(matches, answered, e.correlationId))
    && (TakesButtons(l0) ==> l1[|l1| - 1] == l0[|l0| - 1].(actions := l1[|l1| - 1].actions))
    && (!TakesButtons(l0) ==>
          && l1[|l1| - 1].id == e.eventId
          && l1[|l1| - 1].text == Some(Str(ActionRequired + Humanize(AsString(sigName).GetOr(""))))
          && l1[|l1| - 1].timestamp == e.createdAt)
  }

  /** The buttons for the waited-for signal go to `actor`'s side. */
  function Ask(t: Transcript, actor: Actor, sigName: Option<Value>, e: Event, answered: bool): (r: Transcript)
    ensures Asked(t, r, actor, sigName, e, answered)
  {
    var actions := OfferedActions(Seqs.Filter(actor.signals, Named(sigName)), answered, e.correlationId);
    var toUser := actor.role == User;
    var text := ActionRequired + Humanize(AsString(sigName).GetOr(""));
    WithList(t, toUser, Offer(ListOf(t, toUser), actions, e.eventId, text, e.createdAt))
  }

  /** The buttons a wait puts up for the actor declaring the signal: one per
      signal of the waited-for name, at least one, in declaration order, none
      of that name left out, each carrying the wait's correlation id and the
      same disabled state. */
  lemma OfferedActionsAreOwnerSignals(actor: Actor, sigName: Option<Value>, disabled: bool, c: Option<string>)
    requires Declares(sigName)(actor)
    ensures var matches := Seqs.Filter(actor.signals, Named(sigName));
            var actions := OfferedActions(matches, disabled, c);
            && |actions| == |matches| > 0
            && (forall k :: 0 <= k < |actions| ==>
                  && actions[k].signal == matches[k]
                  && Some(Str(actions[k].signal.name)) == sigName
                  && actions[k].correlationId == c
                  && actions[k].disabled == disabled)
            && (forall j :: 0 <= j < |actor.signals| && Named(sigName)(actor.signals[j]) ==> actor.signals[j] in matches)
  {
    var matches := Seqs.Filter(actor.signals, Named(sigName));
    DeclaresIffMatches(actor, sigName);
    forall j | 0 <= j < |actor.signals| && Named(sigName)(actor.signals[j]) ensures actor.signals[j] in matches {
      Seqs.FilterKeeps(actor.signals, Named(sigName), actor.signals[j]);
    }
  }

  /** The event kinds the chat reacts to. */
  predicate Shown(e: Event) {
    e.eventType == Some(StepCompleted) || e.eventType == Some(SignalReceived) || e.eventType == Some(SignalWaiting)
  }

  /** One event of the log applied to the transcripts. */
  function Apply(all: seq<Event>, actors: seq<Actor>, t: Transcript, e: Event): (r: Transcript)
    ensures !Shown(e) ==> r == t
    ensures |r.user| >= |t.user| && |r.manager| >= |t.manager|
    ensures |r.user| + |r.manager| <= |t.user| + |t.manager| + 1
  {
    if e.eventType == Some(StepCompleted) then OnStepCompleted(t, e)
    else if e.eventType == Some(SignalReceived) then OnSignalReceived(all, actors, t, e)
    else if e.eventType == Some(SignalWaiting) then OnSignalWaiting(all, actors, t, e)
    else t
  }

  /** The transcripts after the first `n` events of the log. */
  function Replay(all: seq<Event>, actors: seq<Actor>, n: nat): (r: Transcript)
    requires n <= |all|
    ensures |r.user| + |r.manager| <= n
  {
    if n == 0 then Transcript([], []) else Apply(all, actors, Replay(all, actors, n - 1), all[n - 1])
  }

  /** Every side of `a` is at most as long as the same side of `b`. */
  predicate Within(a: Transcript, b: Transcript) {
    |a.user| <= |b.user| && |a.manager| <= |b.manager|
  }

  /** Replaying more of the log never shrinks either side. */
  lemma {:induction false} ReplayGrows(all: seq<Event>, actors: seq<Actor>, m: nat, n: nat)
    requires m <= n <= |all|
    ensures Within(Replay(all, actors, m), Replay(all, actors, n))
    decreases n - m
  {
    if m < n {
      var a := Replay(all, actors, m);
      var b := Replay(all, actors, m + 1);
      var c := Replay(all, actors, n);
      assert Within(a, b) by {
        ReplayStepGrows(all, actors, m);
      }
      assert Within(b, c) by {
        ReplayGrows(all, actors, m + 1, n);
      }
      WithinTransitive(a, b, c);
    }
  }

  lemma WithinTransitive(a: Transcript, b: Transcript, c: Transcript)
    requires Within(a, b) && Within(b, c)
    ensures Within(a, c)
  {
  }

  /** One more event of the log only adds messages. */
  lemma ReplayStepGrows(all: seq<Event>, actors: seq<Actor>, n: nat)
    requires n < |all|
    ensures Within(Replay(all, actors, n), Replay(all, actors, n + 1))
  {
    var t := Replay(all, actors, n);
    assert Replay(all, actors, n + 1) == Apply(all, actors, t, all[n]);
  }

  /** Both transcripts for the whole log. */
  function Transcripts(events: seq<Event>, actors: seq<Actor>): Transcript {
    Replay(events, actors, |events|)
  }

  // ---------------------------------------------------------------------------
  // What the transcripts promise

  /** Every button of `m` is disabled exactly when the log answers its
      correlation id, and all its buttons share one correlation id. */
  ghost predicate HonestMessage(all: seq<Event>, m: ChatMessage) {
    m.actions.Some? ==>
      forall k :: 0 <= k < |m.actions.value| ==>
        && m.actions.value[k].disabled == Answered(all, m.actions.value[k].correlationId)
        && m.actions.value[k].correlationId == m.actions.value[0].correlationId
  }

  ghost predicate HonestList(all: seq<Event>, l: seq<ChatMessage>) {
    forall i :: 0 <= i < |l| ==> HonestMessage(all, l[i])
  }

  ghost predicate Honest(all: seq<Event>, t: Transcript) {
    HonestList(all, t.user) && HonestList(all, t.manager)
  }

  lemma HonestAppend(all: seq<Event>, l: seq<ChatMessage>, m: ChatMessage)
    requires HonestList(all, l) && HonestMessage(all, m)
    ensures HonestList(all, l + [m])
  {
    forall i | 0 <= i < |l| + 1 ensures HonestMessage(all, (l + [m])[i]) {
      if i < |l| {
        assert (l + [m])[i] == l[i];
      }
    }
  }

  lemma HonestReplace(all: seq<Event>, l: seq<ChatMessage>, i: nat, m: ChatMessage)
    requires HonestList(all, l) && HonestMessage(all, m) && i < |l|
    ensures HonestList(all, l[i := m])
  {
  }

  /** Disabling the buttons offered for an answered correlation id keeps every
      button honest. */
  lemma DisableOfferHonest(all: seq<Event>, t: Transcript, toUser: bool, c: Option<string>)
    requires Honest(all, t) && Answered(all, c)
    ensures Honest(all, DisableOffer(t, toUser, c))
  {
    var list := ListOf(t, toUser);
    var source := Seqs.FirstIndex(list, Offers(c));
    if source.Some? {
      var m := list[source.value];
      assert HonestMessage(all, m);
      var k0 :| 0 <= k0 < |m.actions.value| && m.actions.value[k0].correlationId == c;
      var disabled := DisableAll(m.actions.value);
      assert forall k :: 0 <= k < |disabled| ==> disabled[k].correlationId == c;
      HonestReplace(all, list, source.value, m.(actions := Some(disabled)));
    }
  }

  /** A received signal keeps every button honest. */
  lemma OnSignalReceivedHonest(all: seq<Event>, actors: seq<Actor>, t: Transcript, n: nat)
    requires n < |all| && all[n].eventType == Some(SignalReceived)
    requires Honest(all, t)
    ensures Honest(all, OnSignalReceived(all, actors, t, all[n]))
  {
    var e := all[n];
    var wait := Seqs.Find(all, WaitWith(e.correlationId));
    if wait.Some? {
      var result := FindSignalDefinition(actors, Field(wait.value.payload, "name"), Some(e.payload));
      if result.Some? {
        var (actor, signal) := result.value;
        var msg := ChatMessage(e.eventId, actor.role, Some(Str(AnswerText(signal))), e.createdAt, None);
        HonestAppend(all, t.user, msg);
        HonestAppend(all, t.manager, msg);
        var t1 := PostAs(t, actor.role, msg);
        assert ReceivedFor(e.correlationId)(all[n]);
        DisableOfferHonest(all, t1, actor.role == User, e.correlationId);
      }
    }
  }

  /** A wait keeps every button honest: its own buttons are disabled exactly
      when the log answers it. */
  lemma OnSignalWaitingHonest(all: seq<Event>, actors: seq<Actor>, t: Transcript, e: Event)
    requires Honest(all, t)
    ensures Honest(all, OnSignalWaiting(all, actors, t, e))
  {
    var sigName := Field(e.payload, "name");
    var owner := Seqs.FirstIndex(actors, Declares(sigName));
    if owner.Some? {
      var actor := actors[owner.value];
      var actions := OfferedActions(Seqs.Filter(actor.signals, Named(sigName)), Answered(all, e.correlationId), e.correlationId);
      var toUser := actor.role == User;
      var list := ListOf(t, toUser);
      if TakesButtons(list) {
        HonestReplace(all, list, |list| - 1, list[|list| - 1].(actions := Some(actions)));
      } else {
        var text := ActionRequired + Humanize(AsString(sigName).GetOr(""));
        HonestAppend(all, list, ChatMessage(e.eventId, System, Some(Str(text)), e.createdAt, Some(actions)));
      }
    }
  }

  /** Replaying any prefix of the log keeps every button honest. */
  lemma {:induction false} ReplayHonest(all: seq<Event>, actors: seq<Actor>, n: nat)
    requires n <= |all|
    ensures Honest(all, Replay(all, actors, n))
  {
    if n > 0 {
      var m := n - 1;
      ReplayHonest(all, actors, m);
      ReplayStepHonest(all, actors, m);
      assert Replay(all, actors, m + 1) == Replay(all, actors, n);
    }
  }

  /** Replaying one more event keeps the transcripts honest. */
  lemma ReplayStepHonest(all: seq<Event>, actors: seq<Actor>, n: nat)
    requires n < |all| && Honest(all, Replay(all, actors, n))
    ensures Honest(all, Replay(all, actors, n + 1))
  {
    var t := Replay(all, actors, n);
    ApplyHonest(all, actors, t, n);
    assert Replay(all, actors, n + 1) == Apply(all, actors, t, all[n]);
  }

  /** Every event keeps every button honest. */
  lemma ApplyHonest(all: seq<Event>, actors: seq<Actor>, t: Transcript, n: nat)
    requires n < |all| && Honest(all, t)
    ensures Honest(all, Apply(all, actors, t, all[n]))
  {
    var e := all[n];
    if e.eventType == Some(StepCompleted) {
      OnStepCompletedHonest(all, t, e);
    } else if e.eventType == Some(SignalReceived) {
      OnSignalReceivedHonest(all, actors, t, n);
    } else if e.eventType == Some(SignalWaiting) {
      OnSignalWaitingHonest(all, actors, t, e);
    }
  }

  /** A completed step's message has no buttons. */
  lemma OnStepCompletedHonest(all: seq<Event>, t: Transcript, e: Event)
    requires Honest(all, t)
    ensures Honest(all, OnStepCompleted(t, e))
  {
    var output := Field(e.payload, "output");
    var msg := ChatMessage(e.eventId, System, FieldOf(output, "text"), e.createdAt, None);
    HonestAppend(all, t.user, msg);
    HonestAppend(all, t.manager, msg);
  }

  /** In both transcripts every button is disabled exactly when some received
      signal in the log carries its correlation id, and the buttons of one
      message all answer the same wait. */
  lemma ButtonsDisabledExactlyWhenAnswered(events: seq<Event>, actors: seq<Actor>, toUser: bool, i: nat, k: nat)
    requires var l := ListOf(Transcripts(events, actors), toUser);
             i < |l| && l[i].actions.Some? && k < |l[i].actions.value|
    ensures var m := ListOf(Transcripts(events, actors), toUser)[i];
            && (m.actions.value[k].disabled <==> exists j :: 0 <= j < |events| && events[j].eventType == Some(SignalReceived) && events[j].correlationId == m.actions.value[k].correlationId)
            && m.actions.value[k].correlationId == m.actions.value[0].correlationId
  {
    ReplayHonest(events, actors, |events|);
    var m := ListOf(Transcripts(events, actors), toUser)[i];
    assert HonestMessage(events, m);
  }

  /** The user's transcript holds only user and system messages, the back
      office's only manager and system messages. */
  ghost predicate SidesKept(t: Transcript) {
    NoneFrom(t.user, Manager) && NoneFrom(t.manager, User)
  }

  /** No message of `l` is sent by `who`. */
  ghost predicate NoneFrom(l: seq<ChatMessage>, who: Role) {
    forall i :: 0 <= i < |l| ==> l[i].sender != who
  }

  lemma OfferKeepsSenders(l: seq<ChatMessage>, actions: seq<ChatAction>, id: string, text: string, timestamp: int, who: Role)
    requires who != System && NoneFrom(l, who)
    ensures NoneFrom(Offer(l, actions, id, text, timestamp), who)
  {
  }

  lemma {:induction false} ReplayKeepsSides(all: seq<Event>, actors: seq<Actor>, n: nat)
    requires n <= |all|
    ensures SidesKept(Replay(all, actors, n))
  {
    if n > 0 {
      var m := n - 1;
      ReplayKeepsSides(all, actors, m);
      ReplayStepKeepsSides(all, actors, m);
      assert Replay(all, actors, m + 1) == Replay(all, actors, n);
    }
  }

  /** Replaying one more event keeps every message on its side. */
  lemma ReplayStepKeepsSides(all: seq<Event>, actors: seq<Actor>, n: nat)
    requires n < |all| && SidesKept(Replay(all, actors, n))
    ensures SidesKept(Replay(all, actors, n + 1))
  {
    var t := Replay(all, actors, n);
    var e := all[n];
    assert Replay(all, actors, n + 1) == Apply(all, actors, t, e);
    if e.eventType == Some(StepCompleted) {
      assert Apply(all, actors, t, e) == OnStepCompleted(t, e);
    } else if e.eventType == Some(SignalReceived) {
      assert Apply(all, actors, t, e) == OnSignalReceived(all, actors, t, e);
    } else if e.eventType == Some(SignalWaiting) {
      OnSignalWaitingKeepsSides(all, actors, t, e);
    }
  }

  lemma OnSignalWaitingKeepsSides(all: seq<Event>, actors: seq<Actor>, t: Transcript, e: Event)
    requires SidesKept(t)
    ensures SidesKept(OnSignalWaiting(all, actors, t, e))
  {
    var sigName := Field(e.payload, "name");
    var owner := Seqs.FirstIndex(actors, Declares(sigName));
    if owner.Some? {
      var actor := actors[owner.value];
      var actions := OfferedActions(Seqs.Filter(actor.signals, Named(sigName)), Answered(all, e.correlationId), e.correlationId);
      var toUser := actor.role == User;
      var text := ActionRequired + Humanize(AsString(sigName).GetOr(""));
      var l := Offer(ListOf(t, toUser), actions, e.eventId, text, e.createdAt);
      assert OnSignalWaiting(all, actors, t, e) == WithList(t, toUser, l);
      OfferKeepsSenders(ListOf(t, toUser), actions, e.eventId, text, e.createdAt, if toUser then Manager else User);
    }
  }

  // ---------------------------------------------------------------------------
  // Who is being waited on

  function HasRole(role: Role): Actor -> bool {
    (a: Actor) => a.role == role
  }

  /** `a.signals?.some(s => !!getWaitingCorrelationId(s.name))`. */
  function WaitedOn(events: seq<Event>): Actor -> bool {
    (a: Actor) => exists j :: 0 <= j < |a.signals| && Awaited(events)(a.signals[j])
  }

  /** `userWaiting` / `managerWaiting`: some actor of `role` is being asked
      for a signal. */
  predicate RoleWaiting(actors: seq<Actor>, events: seq<Event>, role: Role) {
    var ofRole := Seqs.Filter(actors, HasRole(role));
    exists i :: 0 <= i < |ofRole| && WaitedOn(events)(ofRole[i])
  }

  /** Some actor of `role` has a card saying it is waited on. */
  ghost predicate SomeCardWaiting(actors: seq<Actor>, events: seq<Event>, role: Role) {
    exists i :: 0 <= i < |actors| && actors[i].role == role && CardOf(actors[i], events).isWaiting
  }

  /** A side is waiting exactly when the card of one of its actors says so. */
  lemma RoleWaitingIffCardWaiting(actors: seq<Actor>, events: seq<Event>, role: Role)
    ensures RoleWaiting(actors, events, role) <==> SomeCardWaiting(actors, events, role)
  {
    if RoleWaiting(actors, events, role) {
      WaitingRoleHasWaitingCard(actors, events, role);
    }
    if SomeCardWaiting(actors, events, role) {
      WaitingCardMakesRoleWaiting(actors, events, role);
    }
  }

  lemma WaitingRoleHasWaitingCard(actors: seq<Actor>, events: seq<Event>, role: Role)
    requires RoleWaiting(actors, events, role)
    ensures SomeCardWaiting(actors, events, role)
  {
    var ofRole := Seqs.Filter(actors, HasRole(role));
    var i :| 0 <= i < |ofRole| && WaitedOn(events)(ofRole[i]);
    assert ofRole[i] in multiset(actors);
    var j := Seqs.MultisetIndex(actors, ofRole[i]);
    assert actors[j].role == role;
    var s :| 0 <= s < |actors[j].signals| && Awaited(events)(actors[j].signals[s]);
    assert CardOf(actors[j], events).isWaiting;
  }

  lemma WaitingCardMakesRoleWaiting(actors: seq<Actor>, events: seq<Event>, role: Role)
    requires SomeCardWaiting(actors, events, role)
    ensures RoleWaiting(actors, events, role)
  {
    var ofRole := Seqs.Filter(actors, HasRole(role));
    var i :| 0 <= i < |actors| && actors[i].role == role && CardOf(actors[i], events).isWaiting;
    assert actors[i] in multiset(ofRole);
    var j := Seqs.MultisetIndex(ofRole, actors[i]);
    var first := Seqs.FirstIndex(actors[i].signals, Awaited(events));
    assert Awaited(events)(actors[i].signals[first.value]);
    assert WaitedOn(events)(ofRole[j]);
  }
}
