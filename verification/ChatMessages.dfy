/**
 * The chat event reducer: messages replaced or appended by id under a cap, the activities and the tool log of a turn,
 * and its final answer.
 */
module ChatMessages {
  import opened Prelude

  datatype ActivityState = Reading | Planning | Editing | Verifying | Waiting | Running | Completed | FailedState

  datatype Activity = Activity(id: string, toolName: string, state: ActivityState, detail: string, timestamp: string)

  datatype MessageType = Info | Error | Warning

  datatype Message = Message(
    id: string, text: string, timestamp: string, messageType: MessageType,
    transient: Option<bool>, toolActivities: Option<seq<Activity>>)

  const MAX_TOOL_ACTIVITIES: nat := 5

  datatype UpdateStatus = AwaitingApproval | IsRunning | HasResult

  /**
   * The parts of an event that the reducer reads. kind is what classifyTool makes of the tool's name and arguments,
   * argsSummary what summarizeToolArgs makes of them, and failureText the formatted failure message.
   */
  datatype Event =
    | LifecycleStart(runId: string, turnId: string, createdAt: string)
    | AssistantDelta(runId: string, turnId: string, createdAt: string, text: string)
    | AssistantFinal(runId: string, turnId: string, createdAt: string, text: string, persisted: bool)
    | ActivityEvent(runId: string, turnId: string, createdAt: string, message: string, sourceId: Option<string>,
                    transient: Option<bool>)
    | ToolStart(runId: string, turnId: string, createdAt: string, toolCallId: string, toolName: string,
                argsSummary: string, kind: ActivityState)
    | ToolUpdate(runId: string, turnId: string, createdAt: string, toolCallId: string, toolName: string,
                 status: UpdateStatus, message: string, kind: ActivityState)
    | ToolEnd(runId: string, turnId: string, createdAt: string, toolCallId: string, toolName: string, success: bool,
              summary: string)
    | LifecycleEnd(runId: string, turnId: string, createdAt: string)
    | LifecycleError(runId: string, turnId: string, createdAt: string, partialText: string, failureText: string)

  /** classifyTool answers waiting for a call that awaits approval and for no other. */
  predicate WellClassified(e: Event) {
    (e.ToolStart? || e.ToolUpdate?) ==> e.kind != Waiting
  }

  // ----- Lists -----

  function LastN<T>(xs: seq<T>, n: nat): seq<T> {
    if |xs| <= n then xs else xs[|xs| - n..]
  }

  /** messages.slice(-maxMessages): slice(-0) is the whole list. */
  function Slice<T>(xs: seq<T>, maxMessages: nat): seq<T> {
    if maxMessages == 0 then xs else LastN(xs, maxMessages)
  }

  /** The index of the first of the first n messages with the id, or -1. */
  function FindIndexFirst(messages: seq<Message>, n: nat, id: string): (i: int)
    requires n <= |messages|
    ensures -1 <= i < n
    ensures i >= 0 ==> messages[i].id == id && forall j :: 0 <= j < i ==> messages[j].id != id
    ensures i < 0 ==> forall j :: 0 <= j < n ==> messages[j].id != id
  {
    if n == 0 then -1
    else
      var i := FindIndexFirst(messages, n - 1, id);
      if i >= 0 then i else if messages[n - 1].id == id then n - 1 else -1
  }

  function FindIndex(messages: seq<Message>, id: string): (i: int)
    ensures -1 <= i < |messages|
    ensures i >= 0 ==> messages[i].id == id && forall j :: 0 <= j < i ==> messages[j].id != id
    ensures i < 0 ==> forall j :: 0 <= j < |messages| ==> messages[j].id != id
  {
    FindIndexFirst(messages, |messages|, id)
  }

  function Upsert(messages: seq<Message>, next: Message, maxMessages: nat): seq<Message> {
    var i := FindIndex(messages, next.id);
    if i >= 0 then messages[i := next] else Slice(messages + [next], maxMessages)
  }

  predicate TransientActivity(m: Message, turnId: string) {
    m.id == ActivityId(turnId) && m.transient == Some(true)
  }

  function RemoveFirst(messages: seq<Message>, n: nat, turnId: string): seq<Message>
    requires n <= |messages|
  {
    if n == 0 then []
    else
      var rest := RemoveFirst(messages, n - 1, turnId);
      if TransientActivity(messages[n - 1], turnId) then rest else rest + [messages[n - 1]]
  }

  function RemoveTransient(messages: seq<Message>, turnId: string): seq<Message> {
    RemoveFirst(messages, |messages|, turnId)
  }

  function ActivityId(turnId: string): string {
    "activity:" + turnId
  }

  function ToolLogId(turnId: string): string {
    "tool-log:" + turnId
  }

  function ActivityMessageId(e: Event): string
    requires e.ActivityEvent?
  {
    if e.transient == Some(false) && e.sourceId.Some? && e.sourceId.value != "" then
      ActivityId(e.turnId) + ":" + e.sourceId.value
    else ActivityId(e.turnId)
  }

  // ----- The tool log -----

  function StateText(s: ActivityState): string {
    match s
    case Reading => "Reading"
    case Planning => "Planning"
    case Editing => "Editing"
    case Verifying => "Verifying"
    case Waiting => "Waiting for approval"
    case Completed => "Completed"
    case FailedState => "Failed"
    case Running => "Running"
  }

  function RenderFirst(activities: seq<Activity>, n: nat, current: bool): string
    requires n <= |activities|
  {
    if n == 0 then (if current then "Current activity" else "Recent activity")
    else
      var a := activities[n - 1];
      RenderFirst(activities, n - 1, current) + "\n- " + StateText(a.state) + " " + a.toolName +
      if a.detail != "" then " - " + a.detail else ""
  }

  function Render(activities: seq<Activity>, current: bool): string {
    RenderFirst(activities, |activities|, current)
  }

  function Closed(m: Message, turnId: string): Message {
    if m.id != ToolLogId(turnId) || m.toolActivities.None? then m
    else m.(text := Render(m.toolActivities.value, false), transient := Some(false))
  }

  function CloseToolActivity(messages: seq<Message>, turnId: string): (r: seq<Message>)
    ensures |r| == |messages|
    ensures forall i :: 0 <= i < |r| ==> r[i] == Closed(messages[i], turnId)
  {
    seq(|messages|, i requires 0 <= i < |messages| => Closed(messages[i], turnId))
  }

  function FindActivityFirst(activities: seq<Activity>, n: nat, id: string): (r: Option<Activity>)
    requires n <= |activities|
    ensures r.Some? ==> r.value in activities && r.value.id == id
    ensures r.None? ==> forall i :: 0 <= i < n ==> activities[i].id != id
  {
    if n == 0 then None
    else
      var r := FindActivityFirst(activities, n - 1, id);
      if r.Some? then r else if activities[n - 1].id == id then Some(activities[n - 1]) else None
  }

  function FindActivity(activities: seq<Activity>, id: string): (r: Option<Activity>)
    ensures r.Some? ==> r.value in activities && r.value.id == id
    ensures r.None? ==> forall i :: 0 <= i < |activities| ==> activities[i].id != id
  {
    FindActivityFirst(activities, |activities|, id)
  }

  function WithoutFirst(activities: seq<Activity>, n: nat, id: string): seq<Activity>
    requires n <= |activities|
  {
    if n == 0 then []
    else
      var rest := WithoutFirst(activities, n - 1, id);
      if activities[n - 1].id == id then rest else rest + [activities[n - 1]]
  }

  function WithoutActivity(activities: seq<Activity>, id: string): seq<Activity> {
    WithoutFirst(activities, |activities|, id)
  }

  /** The first of the two that is not empty. */
  function Or(a: string, b: string): string {
    if a != "" then a else b
  }

  function DetailOf(e: Event, existing: Option<Activity>): string
    requires e.ToolStart? || e.ToolUpdate? || e.ToolEnd?
  {
    var fallback :=
      match e
      case ToolStart(_, _, _, _, _, argsSummary, _) => argsSummary
      case ToolUpdate(_, _, _, _, _, status, message, _) =>
        if status.IsRunning? && existing.Some? then existing.value.detail else message
      case ToolEnd(_, _, _, _, _, _, summary) => summary;
    Or(fallback, if existing.Some? then existing.value.detail else "")
  }

  function StateOf(e: Event, existing: Option<Activity>): ActivityState
    requires e.ToolStart? || e.ToolUpdate? || e.ToolEnd?
  {
    match e
    case ToolEnd(_, _, _, _, _, success, _) => if success then Completed else FailedState
    case ToolStart(_, _, _, _, _, _, kind) => kind
    case ToolUpdate(_, _, _, _, _, status, _, kind) =>
      if !status.AwaitingApproval? && existing.Some? && existing.value.state != Waiting then existing.value.state
      else if status.AwaitingApproval? then Waiting
      else kind
  }

  function NextActivity(e: Event, existing: Option<Activity>): Activity
    requires e.ToolStart? || e.ToolUpdate? || e.ToolEnd?
  {
    Activity(e.toolCallId, e.toolName, StateOf(e, existing), DetailOf(e, existing), e.createdAt)
  }

  function NextActivities(previous: seq<Activity>, e: Event): seq<Activity>
    requires e.ToolStart? || e.ToolUpdate? || e.ToolEnd?
  {
    var next := NextActivity(e, FindActivity(previous, e.toolCallId));
    LastN(WithoutActivity(previous, e.toolCallId) + [next], MAX_TOOL_ACTIVITIES)
  }

  function ActivitiesAt(messages: seq<Message>, id: string): seq<Activity> {
    var i := FindIndex(messages, id);
    if i >= 0 && messages[i].toolActivities.Some? then messages[i].toolActivities.value else []
  }

  function UpsertToolActivity(messages: seq<Message>, e: Event, maxMessages: nat): seq<Message>
    requires e.ToolStart? || e.ToolUpdate? || e.ToolEnd?
  {
    var activities := NextActivities(ActivitiesAt(messages, ToolLogId(e.turnId)), e);
    Upsert(messages, ToolLogMessage(e, activities), maxMessages)
  }

  function ToolLogMessage(e: Event, activities: seq<Activity>): Message {
    Message(ToolLogId(e.turnId), Render(activities, true), e.createdAt, Info, None, Some(activities))
  }

  // ----- The reducer -----

  /** The message that the event puts in, when it is not a tool event. */
  function PlainMessage(e: Event): Option<Message> {
    match e
    case AssistantDelta(_, turnId, at, text) => Some(Message(turnId, text, at, Info, None, None))
    case AssistantFinal(_, turnId, at, text, persisted) =>
      Some(Message(turnId, text, at, if persisted then Info else Warning, None, None))
    case ActivityEvent(_, _, at, message, _, transient) =>
      Some(Message(ActivityMessageId(e), message, at, Info, Some(transient == Some(true)), None))
    case LifecycleError(runId, turnId, at, partialText, failureText) =>
      Some(Message(if partialText != "" then turnId else "error:" + runId, failureText, at, Error, None, None))
    case _ => None
  }

  /** What the event takes out or closes before it puts its message in. */
  function Prepared(messages: seq<Message>, e: Event): seq<Message> {
    match e
    case AssistantFinal(_, turnId, _, _, _) => RemoveTransient(messages, turnId)
    case LifecycleEnd(_, turnId, _) => CloseToolActivity(RemoveTransient(messages, turnId), turnId)
    case LifecycleError(_, turnId, _, _, _) => CloseToolActivity(RemoveTransient(messages, turnId), turnId)
    case _ => messages
  }

  function ApplyEvent(messages: seq<Message>, e: Event, maxMessages: nat): seq<Message> {
    if e.ToolStart? || e.ToolUpdate? || e.ToolEnd? then UpsertToolActivity(messages, e, maxMessages)
    else
      var prepared := Prepared(messages, e);
      var plain := PlainMessage(e);
      if plain.None? then prepared else Upsert(prepared, plain.value, maxMessages)
  }

  /** The lists before and after each of the events. */
  ghost predicate IsRun(lists: seq<seq<Message>>, events: seq<Event>, maxMessages: nat) {
    && |lists| == |events| + 1
    && forall i :: 0 <= i < |events| ==> lists[i + 1] == ApplyEvent(lists[i], events[i], maxMessages)
  }

  // ----- Well-formed lists -----

  ghost predicate UniqueIds(messages: seq<Message>) {
    forall i, j :: 0 <= i < j < |messages| ==> messages[i].id != messages[j].id
  }

  ghost predicate FewActivities(m: Message) {
    m.toolActivities.Some? ==>
      |m.toolActivities.value| <= MAX_TOOL_ACTIVITIES && DistinctActivities(m.toolActivities.value)
  }

  ghost predicate DistinctActivities(activities: seq<Activity>) {
    forall i, j :: 0 <= i < j < |activities| ==> activities[i].id != activities[j].id
  }

  ghost predicate WellFormed(messages: seq<Message>, maxMessages: nat) {
    && UniqueIds(messages) && |messages| <= maxMessages
    && forall i :: 0 <= i < |messages| ==> FewActivities(messages[i])
  }

  lemma UpsertKeepsWellFormed(messages: seq<Message>, next: Message, maxMessages: nat)
    requires WellFormed(messages, maxMessages) && maxMessages >= 1 && FewActivities(next)
    ensures WellFormed(Upsert(messages, next, maxMessages), maxMessages)
    ensures next in Upsert(messages, next, maxMessages)
  {
    var i := FindIndex(messages, next.id);
    var r := Upsert(messages, next, maxMessages);
    if i >= 0 {
      assert r[i] == next;
    } else {
      assert r[|r| - 1] == next;
    }
  }

  lemma {:induction false} RemoveFirstKeeps(messages: seq<Message>, n: nat, turnId: string)
    requires UniqueIds(messages) && n <= |messages|
    ensures UniqueIds(RemoveFirst(messages, n, turnId)) && |RemoveFirst(messages, n, turnId)| <= n
    ensures forall m :: m in RemoveFirst(messages, n, turnId) <==> m in messages[..n] && !TransientActivity(m, turnId)
  {
    if n > 0 {
      RemoveFirstKeeps(messages, n - 1, turnId);
      assert messages[..n] == messages[..n - 1] + [messages[n - 1]];
      var rest, m := RemoveFirst(messages, n - 1, turnId), messages[n - 1];
      forall i | 0 <= i < |rest| ensures rest[i].id != m.id {
        assert rest[i] in messages[..n - 1];
      }
    }
  }

  /** Removal leaves a sublist: the messages that stay keep their order. */
  lemma RemoveKeepsWellFormed(messages: seq<Message>, turnId: string, maxMessages: nat)
    requires WellFormed(messages, maxMessages)
    ensures WellFormed(RemoveTransient(messages, turnId), maxMessages)
    ensures forall m :: m in RemoveTransient(messages, turnId) <==> m in messages && !TransientActivity(m, turnId)
    ensures |RemoveTransient(messages, turnId)| <= |messages|
  {
    RemoveFirstKeeps(messages, |messages|, turnId);
    assert messages[..|messages|] == messages;
    var removed := RemoveTransient(messages, turnId);
    forall i | 0 <= i < |removed| ensures FewActivities(removed[i]) {
      assert removed[i] in messages;
    }
  }

  lemma CloseKeepsWellFormed(messages: seq<Message>, turnId: string, maxMessages: nat)
    requires WellFormed(messages, maxMessages)
    ensures WellFormed(CloseToolActivity(messages, turnId), maxMessages)
  {
  }

  lemma {:induction false} WithoutFirstKeeps(activities: seq<Activity>, n: nat, id: string)
    requires DistinctActivities(activities) && n <= |activities|
    ensures DistinctActivities(WithoutFirst(activities, n, id))
    ensures forall a :: a in WithoutFirst(activities, n, id) <==> a in activities[..n] && a.id != id
  {
    if n > 0 {
      WithoutFirstKeeps(activities, n - 1, id);
      assert activities[..n] == activities[..n - 1] + [activities[n - 1]];
      var rest, a := WithoutFirst(activities, n - 1, id), activities[n - 1];
      forall i | 0 <= i < |rest| ensures rest[i].id != a.id {
        assert rest[i] in activities[..n - 1];
      }
    }
  }

  lemma WithoutActivityKeeps(activities: seq<Activity>, id: string)
    requires DistinctActivities(activities)
    ensures var r := WithoutActivity(activities, id);
      DistinctActivities(r) && forall a :: a in r <==> a in activities && a.id != id
  {
    WithoutFirstKeeps(activities, |activities|, id);
    assert activities[..|activities|] == activities;
  }

  lemma LastFewDistinct(kept: seq<Activity>, next: Activity)
    requires DistinctActivities(kept) && forall a :: a in kept ==> a.id != next.id
    ensures DistinctActivities(LastN(kept + [next], MAX_TOOL_ACTIVITIES))
  {
    assert forall i :: 0 <= i < |kept| ==> kept[i] in kept;
    assert DistinctActivities(kept + [next]);
  }

  lemma ToolMessageFew(previous: seq<Activity>, e: Event)
    requires e.ToolStart? || e.ToolUpdate? || e.ToolEnd?
    requires DistinctActivities(previous)
    ensures FewActivities(ToolLogMessage(e, NextActivities(previous, e)))
  {
    WithoutActivityKeeps(previous, e.toolCallId);
    LastFewDistinct(WithoutActivity(previous, e.toolCallId), NextActivity(e, FindActivity(previous, e.toolCallId)));
  }

  lemma PreparedKeepsWellFormed(messages: seq<Message>, e: Event, maxMessages: nat)
    requires WellFormed(messages, maxMessages)
    ensures WellFormed(Prepared(messages, e), maxMessages)
  {
    RemoveKeepsWellFormed(messages, e.turnId, maxMessages);
    CloseKeepsWellFormed(RemoveTransient(messages, e.turnId), e.turnId, maxMessages);
  }

  lemma EventKeepsWellFormed(messages: seq<Message>, e: Event, maxMessages: nat)
    requires WellFormed(messages, maxMessages) && maxMessages >= 1
    ensures WellFormed(ApplyEvent(messages, e, maxMessages), maxMessages)
  {
    if e.ToolStart? || e.ToolUpdate? || e.ToolEnd? {
      var previous := ActivitiesAt(messages, ToolLogId(e.turnId));
      ToolMessageFew(previous, e);
      UpsertKeepsWellFormed(messages, ToolLogMessage(e, NextActivities(previous, e)), maxMessages);
    } else {
      PreparedKeepsWellFormed(messages, e, maxMessages);
      if PlainMessage(e).Some? {
        UpsertKeepsWellFormed(Prepared(messages, e), PlainMessage(e).value, maxMessages);
      }
    }
  }

  /**
   * Every event sequence keeps ids unique, the list within its cap, and five tool activities at most, with distinct
   * ids.
   */
  lemma {:induction false} RunKeepsWellFormed(lists: seq<seq<Message>>, events: seq<Event>, maxMessages: nat, n: nat)
    requires IsRun(lists, events, maxMessages) && WellFormed(lists[0], maxMessages) && maxMessages >= 1
    requires n <= |events|
    ensures WellFormed(lists[n], maxMessages)
  {
    if n > 0 {
      var i := n - 1;
      RunKeepsWellFormed(lists, events, maxMessages, i);
      EventKeepsWellFormed(lists[i], events[i], maxMessages);
      assert lists[i + 1] == ApplyEvent(lists[i], events[i], maxMessages);
    }
  }

  // ----- Applying an event twice -----

  lemma UpsertTwice(messages: seq<Message>, next: Message, maxMessages: nat)
    requires WellFormed(messages, maxMessages) && maxMessages >= 1 && FewActivities(next)
    ensures var once := Upsert(messages, next, maxMessages);
      && FindIndex(once, next.id) >= 0 && once[FindIndex(once, next.id)] == next
      && Upsert(once, next, maxMessages) == once
  {
    UpsertKeepsWellFormed(messages, next, maxMessages);
    var once := Upsert(messages, next, maxMessages);
    var j :| 0 <= j < |once| && once[j] == next;
    var i := FindIndex(once, next.id);
    assert i == j;
  }

  lemma {:induction false} RemoveNoneOfFirst(messages: seq<Message>, n: nat, turnId: string)
    requires n <= |messages| && forall m :: m in messages ==> !TransientActivity(m, turnId)
    ensures RemoveFirst(messages, n, turnId) == messages[..n]
  {
    if n > 0 {
      RemoveNoneOfFirst(messages, n - 1, turnId);
      assert messages[..n] == messages[..n - 1] + [messages[n - 1]];
    }
  }

  lemma RemoveNothing(messages: seq<Message>, turnId: string)
    requires forall m :: m in messages ==> !TransientActivity(m, turnId)
    ensures RemoveTransient(messages, turnId) == messages
  {
    RemoveNoneOfFirst(messages, |messages|, turnId);
    assert messages[..|messages|] == messages;
  }

  lemma CloseNothing(messages: seq<Message>, turnId: string)
    requires forall m :: m in messages ==> Closed(m, turnId) == m
    ensures CloseToolActivity(messages, turnId) == messages
  {
  }

  /** A list that the event's preparation no longer changes. */
  ghost predicate IsPrepared(m: Message, turnId: string) {
    !TransientActivity(m, turnId) && Closed(m, turnId) == m
  }

  lemma PreparedIsPrepared(messages: seq<Message>, e: Event, maxMessages: nat)
    requires WellFormed(messages, maxMessages) && (e.LifecycleEnd? || e.LifecycleError?)
    ensures forall m :: m in Prepared(messages, e) ==> IsPrepared(m, e.turnId)
  {
    RemoveKeepsWellFormed(messages, e.turnId, maxMessages);
    var removed := RemoveTransient(messages, e.turnId);
    forall m | m in CloseToolActivity(removed, e.turnId) ensures IsPrepared(m, e.turnId) {
      var i :| 0 <= i < |removed| && m == Closed(removed[i], e.turnId);
      assert removed[i] in removed;
    }
  }

  lemma PreparedAgain(messages: seq<Message>, e: Event)
    requires e.AssistantFinal? ==>
      forall m :: m in messages ==> !TransientActivity(m, e.turnId)
    requires e.LifecycleEnd? || e.LifecycleError? ==> forall m :: m in messages ==> IsPrepared(m, e.turnId)
    ensures Prepared(messages, e) == messages
  {
    if e.AssistantFinal? || e.LifecycleEnd? || e.LifecycleError? {
      RemoveNothing(messages, e.turnId);
    }
    if e.LifecycleEnd? || e.LifecycleError? {
      CloseNothing(messages, e.turnId);
    }
  }

  lemma UpsertAdds(messages: seq<Message>, next: Message, maxMessages: nat)
    ensures forall m :: m in Upsert(messages, next, maxMessages) ==> m == next || m in messages
  {
  }

  lemma PlainTwice(messages: seq<Message>, e: Event, maxMessages: nat)
    requires WellFormed(messages, maxMessages) && maxMessages >= 1
    requires !(e.ToolStart? || e.ToolUpdate? || e.ToolEnd?)
    ensures var once := ApplyEvent(messages, e, maxMessages); ApplyEvent(once, e, maxMessages) == once
  {
    var once := ApplyEvent(messages, e, maxMessages);
    PreparedKeepsWellFormed(messages, e, maxMessages);
    RemoveKeepsWellFormed(messages, e.turnId, maxMessages);
    if e.LifecycleEnd? || e.LifecycleError? {
      PreparedIsPrepared(messages, e, maxMessages);
    }
    if PlainMessage(e).Some? {
      UpsertTwice(Prepared(messages, e), PlainMessage(e).value, maxMessages);
      UpsertAdds(Prepared(messages, e), PlainMessage(e).value, maxMessages);
    }
    PreparedAgain(once, e);
  }

  lemma {:induction false} WithoutAbsent(activities: seq<Activity>, a: Activity, n: nat)
    requires n <= |activities| && forall b :: b in activities ==> b.id != a.id
    ensures WithoutFirst(activities + [a], n, a.id) == activities[..n]
    ensures FindActivityFirst(activities + [a], n, a.id) == None
  {
    if n > 0 {
      WithoutAbsent(activities, a, n - 1);
      assert (activities + [a])[n - 1] == activities[n - 1] && activities[n - 1] in activities;
      assert activities[..n] == activities[..n - 1] + [activities[n - 1]];
    }
  }

  lemma FindLast(activities: seq<Activity>, a: Activity)
    requires forall b :: b in activities ==> b.id != a.id
    ensures FindActivity(activities + [a], a.id) == Some(a)
    ensures WithoutActivity(activities + [a], a.id) == activities
  {
    WithoutAbsent(activities, a, |activities|);
    assert activities[..|activities|] == activities;
  }

  lemma LastNSnoc(kept: seq<Activity>, next: Activity, n: nat)
    ensures LastN(kept + [next], n + 1) == LastN(kept, n) + [next]
  {
  }

  /** State and detail are already what the same event would set. */
  lemma SameNextActivity(e: Event, existing: Option<Activity>)
    requires (e.ToolStart? || e.ToolUpdate? || e.ToolEnd?) && WellClassified(e)
    ensures NextActivity(e, Some(NextActivity(e, existing))) == NextActivity(e, existing)
  {
  }

  /** The same tool event leaves the activities as they are. */
  lemma ActivitiesTwice(previous: seq<Activity>, e: Event)
    requires e.ToolStart? || e.ToolUpdate? || e.ToolEnd?
    requires WellClassified(e)
    requires DistinctActivities(previous)
    ensures NextActivities(NextActivities(previous, e), e) == NextActivities(previous, e)
  {
    var existing, kept := FindActivity(previous, e.toolCallId), WithoutActivity(previous, e.toolCallId);
    var next, head := NextActivity(e, existing), LastN(kept, MAX_TOOL_ACTIVITIES - 1);
    WithoutActivityKeeps(previous, e.toolCallId);
    LastNSnoc(kept, next, MAX_TOOL_ACTIVITIES - 1);
    assert forall a :: a in head ==> a in kept;
    FindLast(head, next);
    SameNextActivity(e, existing);
  }

  lemma ToolTwice(messages: seq<Message>, e: Event, maxMessages: nat)
    requires WellFormed(messages, maxMessages) && maxMessages >= 1
    requires e.ToolStart? || e.ToolUpdate? || e.ToolEnd?
    requires WellClassified(e)
    ensures var once := ApplyEvent(messages, e, maxMessages); ApplyEvent(once, e, maxMessages) == once
  {
    var previous := ActivitiesAt(messages, ToolLogId(e.turnId));
    var activities := NextActivities(previous, e);
    var m := ToolLogMessage(e, activities);
    ToolMessageFew(previous, e);
    UpsertTwice(messages, m, maxMessages);
    ActivitiesTwice(previous, e);
  }

  /** Applying an event twice in a row is applying it once. */
  lemma EventIsIdempotent(messages: seq<Message>, e: Event, maxMessages: nat)
    requires WellFormed(messages, maxMessages) && maxMessages >= 1 && WellClassified(e)
    ensures var once := ApplyEvent(messages, e, maxMessages); ApplyEvent(once, e, maxMessages) == once
  {
    if e.ToolStart? || e.ToolUpdate? || e.ToolEnd? {
      ToolTwice(messages, e, maxMessages);
    } else {
      PlainTwice(messages, e, maxMessages);
    }
  }

  // ----- What an event records -----

  /** A tool event ends as the last entry of its turn's tool log, with the state that the event calls for. */
  lemma ToolEventRecorded(messages: seq<Message>, e: Event, maxMessages: nat)
    requires WellFormed(messages, maxMessages) && maxMessages >= 1 && WellClassified(e)
    requires e.ToolStart? || e.ToolUpdate? || e.ToolEnd?
    ensures var r := ApplyEvent(messages, e, maxMessages);
      var i := FindIndex(r, ToolLogId(e.turnId));
      && i >= 0 && r[i].toolActivities.Some? && r[i].toolActivities.value != []
      && r[i].text == Render(r[i].toolActivities.value, true)
      && var last := r[i].toolActivities.value[|r[i].toolActivities.value| - 1];
         && last.id == e.toolCallId && last.toolName == e.toolName
         && (e.ToolEnd? ==> last.state == if e.success then Completed else FailedState)
         && (!e.ToolEnd? ==> (last.state == Waiting <==> e.ToolUpdate? && e.status == AwaitingApproval))
  {
    var previous := ActivitiesAt(messages, ToolLogId(e.turnId));
    ToolMessageFew(previous, e);
    UpsertTwice(messages, ToolLogMessage(e, NextActivities(previous, e)), maxMessages);
  }

  /**
   * Whatever came before, after its final answer a turn has one message under its id, with the final text, and no
   * transient one.
   */
  lemma FinalAnswerStands(lists: seq<seq<Message>>, events: seq<Event>, maxMessages: nat, n: nat)
    requires IsRun(lists, events, maxMessages) && WellFormed(lists[0], maxMessages) && maxMessages >= 1
    requires n < |events| && events[n].AssistantFinal?
    ensures var e, r := events[n], lists[n + 1];
      && (exists m :: m in r && m.id == e.turnId)
      && (forall m :: m in r && m.id == e.turnId ==>
            m.text == e.text && m.messageType == if e.persisted then Info else Warning)
      && (forall m :: m in r && m.id == ActivityId(e.turnId) ==> m.transient != Some(true))
  {
    var e, before := events[n], lists[n];
    RunKeepsWellFormed(lists, events, maxMessages, n);
    RemoveKeepsWellFormed(before, e.turnId, maxMessages);
    var removed, next := RemoveTransient(before, e.turnId), PlainMessage(e).value;
    UpsertKeepsWellFormed(removed, next, maxMessages);
    UpsertAdds(removed, next, maxMessages);
    UniqueMember(Upsert(removed, next, maxMessages), next);
    assert next in lists[n + 1] && next.id == e.turnId;
  }

  lemma UniqueMember(messages: seq<Message>, next: Message)
    requires UniqueIds(messages) && next in messages
    ensures forall m :: m in messages && m.id == next.id ==> m == next
  {
    var j :| 0 <= j < |messages| && messages[j] == next;
    forall m | m in messages && m.id == next.id ensures m == next {
      var i :| 0 <= i < |messages| && messages[i] == m;
    }
  }

  // ----- The messages after an event, said of the messages alone -----

  /** The message is there, and no other has its id. */
  ghost predicate ShownOnce(messages: seq<Message>, m: Message) {
    m in messages && forall n :: n in messages && n.id == m.id ==> n == m
  }

  ghost predicate Earlier(previous: seq<Activity>, e: Event, former: Activity)
    requires e.ToolStart? || e.ToolUpdate? || e.ToolEnd?
  {
    former in previous && former.id == e.toolCallId
  }

  /**
   * The entry for a tool event: a start or an end has its own state; an update waits while approval is awaited, and
   * else keeps the state that a former entry had, unless that was waiting. A former detail stays where the event has
   * none, and while an update only says that the tool is running.
   */
  ghost predicate EntryFor(previous: seq<Activity>, e: Event, now: Activity)
    requires e.ToolStart? || e.ToolUpdate? || e.ToolEnd?
  {
    && now.id == e.toolCallId && now.toolName == e.toolName && now.timestamp == e.createdAt
    && (e.ToolEnd? ==> now.state == if e.success then Completed else FailedState)
    && (e.ToolStart? ==> now.state == e.kind)
    && (e.ToolUpdate? && e.status == AwaitingApproval ==> now.state == Waiting)
    && (e.ToolUpdate? && e.status != AwaitingApproval ==>
          && (forall former :: Earlier(previous, e, former) && former.state != Waiting ==> now.state == former.state)
          && ((forall former :: Earlier(previous, e, former) ==> former.state == Waiting) ==> now.state == e.kind))
    && var given := if e.ToolStart? then e.argsSummary else if e.ToolEnd? then e.summary else e.message;
       var quiet := given == "" || (e.ToolUpdate? && e.status == IsRunning);
       && (forall former :: Earlier(previous, e, former) && quiet ==> now.detail == former.detail)
       && (!quiet || (forall former :: !Earlier(previous, e, former)) ==> now.detail == given)
  }

  /** The entries of other tools, at most the last four of them, and then the one for the event. */
  ghost predicate LoggedAfter(previous: seq<Activity>, e: Event, now: seq<Activity>)
    requires e.ToolStart? || e.ToolUpdate? || e.ToolEnd?
  {
    var others := Filtered(previous, (a: Activity) => a.id != e.toolCallId);
    var kept := if |others| > 4 then others[|others| - 4..] else others;
    now != [] && now[..|now| - 1] == kept && EntryFor(previous, e, now[|now| - 1])
  }

  /** The activities of the turn's tool log, none if it has no log. */
  ghost predicate ActivitiesOf(messages: seq<Message>, turnId: string, activities: seq<Activity>) {
    if exists m :: m in messages && m.id == "tool-log:" + turnId && m.toolActivities.Some? then
      exists m :: m in messages && m.id == "tool-log:" + turnId && m.toolActivities == Some(activities)
    else activities == []
  }

  lemma {:induction false} WithoutIsFiltered(activities: seq<Activity>, n: nat, id: string)
    requires n <= |activities|
    ensures WithoutFirst(activities, n, id) == Filtered(activities[..n], (a: Activity) => a.id != id)
  {
    if n > 0 {
      WithoutIsFiltered(activities, n - 1, id);
      assert activities[..n][..n - 1] == activities[..n - 1];
    }
  }

  lemma EntryIsRight(previous: seq<Activity>, e: Event)
    requires (e.ToolStart? || e.ToolUpdate? || e.ToolEnd?) && DistinctActivities(previous)
    ensures EntryFor(previous, e, NextActivity(e, FindActivity(previous, e.toolCallId)))
  {
    var existing := FindActivity(previous, e.toolCallId);
    forall former | Earlier(previous, e, former) ensures existing == Some(former) {
      var i :| 0 <= i < |previous| && previous[i] == former;
      if existing.Some? {
        var j :| 0 <= j < |previous| && previous[j] == existing.value;
      }
    }
    assert existing.Some? ==> Earlier(previous, e, existing.value);
  }

  lemma LogIsRight(previous: seq<Activity>, e: Event)
    requires (e.ToolStart? || e.ToolUpdate? || e.ToolEnd?) && DistinctActivities(previous)
    ensures LoggedAfter(previous, e, NextActivities(previous, e))
  {
    EntryIsRight(previous, e);
    WithoutIsFiltered(previous, |previous|, e.toolCallId);
    assert previous[..|previous|] == previous;
    var next := NextActivity(e, FindActivity(previous, e.toolCallId));
    LastNSnoc(WithoutActivity(previous, e.toolCallId), next, MAX_TOOL_ACTIVITIES - 1);
  }

  lemma ActivitiesFound(messages: seq<Message>, turnId: string, maxMessages: nat)
    requires WellFormed(messages, maxMessages)
    ensures ActivitiesOf(messages, turnId, ActivitiesAt(messages, ToolLogId(turnId)))
    ensures DistinctActivities(ActivitiesAt(messages, ToolLogId(turnId)))
  {
    var i := FindIndex(messages, ToolLogId(turnId));
    forall m | m in messages && m.id == ToolLogId(turnId) ensures i >= 0 && messages[i] == m {
      var j :| 0 <= j < |messages| && messages[j] == m;
    }
  }

  /** What is shown for the event, once under its id; for a tool event it is the turn's log with its new entry. */
  ghost predicate Shown(messages: seq<Message>, e: Event, r: seq<Message>) {
    match e
    case AssistantDelta(_, turnId, at, text) => ShownOnce(r, Message(turnId, text, at, Info, None, None))
    case AssistantFinal(_, turnId, at, text, persisted) =>
      ShownOnce(r, Message(turnId, text, at, if persisted then Info else Warning, None, None))
    case ActivityEvent(_, turnId, at, text, sourceId, transient) =>
      var id := if transient == Some(false) && sourceId.Some? && sourceId.value != ""
                then "activity:" + turnId + ":" + sourceId.value else "activity:" + turnId;
      ShownOnce(r, Message(id, text, at, Info, Some(transient == Some(true)), None))
    case LifecycleError(runId, turnId, at, partialText, failureText) =>
      var id := if partialText == "" then "error:" + runId else turnId;
      ShownOnce(r, Message(id, failureText, at, Error, None, None))
    case LifecycleStart(_, _, _) => r == messages
    case LifecycleEnd(_, _, _) => true
    case _ =>
      exists before, now :: ActivitiesOf(messages, e.turnId, before) && LoggedAfter(before, e, now) &&
        ShownOnce(r, Message("tool-log:" + e.turnId, Render(now, true), e.createdAt, Info, None, Some(now)))
  }

  lemma UpsertShows(messages: seq<Message>, next: Message, maxMessages: nat)
    requires WellFormed(messages, maxMessages) && maxMessages >= 1 && FewActivities(next)
    ensures ShownOnce(Upsert(messages, next, maxMessages), next)
  {
    UpsertKeepsWellFormed(messages, next, maxMessages);
    UniqueMember(Upsert(messages, next, maxMessages), next);
  }

  lemma EventShown(messages: seq<Message>, e: Event, maxMessages: nat)
    requires WellFormed(messages, maxMessages) && maxMessages >= 1
    ensures Shown(messages, e, ApplyEvent(messages, e, maxMessages))
  {
    if e.ToolStart? || e.ToolUpdate? || e.ToolEnd? {
      var previous := ActivitiesAt(messages, ToolLogId(e.turnId));
      var now := NextActivities(previous, e);
      ActivitiesFound(messages, e.turnId, maxMessages);
      LogIsRight(previous, e);
      ToolMessageFew(previous, e);
      UpsertShows(messages, ToolLogMessage(e, now), maxMessages);
    } else if PlainMessage(e).Some? {
      PreparedKeepsWellFormed(messages, e, maxMessages);
      UpsertShows(Prepared(messages, e), PlainMessage(e).value, maxMessages);
    }
  }

  function LineOf(a: Activity): string {
    "\n- " + StateText(a.state) + " " + a.toolName + if a.detail == "" then "" else " - " + a.detail
  }

  function Lines(activities: seq<Activity>, n: nat): seq<string>
    requires n <= |activities|
  {
    seq(n, i requires 0 <= i < n => LineOf(activities[i]))
  }

  lemma LineAdded(activities: seq<Activity>, current: bool, n: nat)
    requires 0 < n <= |activities|
    ensures RenderFirst(activities, n, current) == RenderFirst(activities, n - 1, current) + LineOf(activities[n - 1])
  {
    var a, text := activities[n - 1], RenderFirst(activities, n - 1, current);
    var detail := if a.detail != "" then " - " + a.detail else "";
    Associative(text, "\n- " + StateText(a.state) + " " + a.toolName, detail);
    Associative(text, "\n- " + StateText(a.state) + " ", a.toolName);
    Associative(text, "\n- " + StateText(a.state), " ");
    Associative(text, "\n- ", StateText(a.state));
  }

  /** The text of a tool log: a heading, and a line for each entry. */
  lemma {:induction false} RenderedLines(activities: seq<Activity>, current: bool, n: nat)
    requires n <= |activities|
    ensures RenderFirst(activities, n, current) ==
      (if current then "Current activity" else "Recent activity") + Concatenated(Lines(activities, n))
  {
    if n > 0 {
      var lines := Lines(activities, n);
      RenderedLines(activities, current, n - 1);
      LineAdded(activities, current, n);
      assert lines[..n - 1] == Lines(activities, n - 1) && lines[n - 1] == LineOf(activities[n - 1]);
      var heading := if current then "Current activity" else "Recent activity";
      Associative(heading, Concatenated(lines[..n - 1]), lines[n - 1]);
    }
  }

  // ----- Order -----

  /** Of two messages that are still there by their ids, the one that was first still is. */
  ghost predicate SameOrder(before: seq<Message>, after: seq<Message>) {
    forall i, j, p, q ::
      (0 <= i < j < |before| && 0 <= p < |after| && 0 <= q < |after| &&
       after[p].id == before[i].id && after[q].id == before[j].id) ==> p < q
  }

  lemma {:induction false} RemovedAt(messages: seq<Message>, n: nat, turnId: string) returns (places: seq<nat>)
    requires n <= |messages|
    ensures var r := RemoveFirst(messages, n, turnId);
      && |places| == |r| && (forall k :: 0 <= k < |r| ==> places[k] < n && r[k] == messages[places[k]])
      && forall k, l :: 0 <= k < l < |places| ==> places[k] < places[l]
  {
    places := [];
    if n > 0 {
      places := RemovedAt(messages, n - 1, turnId);
      if !TransientActivity(messages[n - 1], turnId) {
        places := places + [n - 1];
      }
    }
  }

  lemma RemoveKeepsOrder(messages: seq<Message>, turnId: string)
    requires UniqueIds(messages)
    ensures SameOrder(messages, RemoveTransient(messages, turnId))
  {
    var r := RemoveTransient(messages, turnId);
    var places := RemovedAt(messages, |messages|, turnId);
    forall i, j, p, q | 0 <= i < j < |messages| && 0 <= p < |r| && 0 <= q < |r| &&
      r[p].id == messages[i].id && r[q].id == messages[j].id ensures p < q
    {
      assert places[p] == i && places[q] == j;
    }
  }

  /** A message that is replaced keeps its place. */
  lemma UpsertReplaces(messages: seq<Message>, next: Message, maxMessages: nat, i: nat)
    requires UniqueIds(messages) && i < |messages| && messages[i].id == next.id
    ensures Upsert(messages, next, maxMessages) == messages[..i] + [next] + messages[i + 1..]
  {
    assert FindIndex(messages, next.id) == i;
  }

  /** One under a new id comes last, and of the others the last ones that have room stay; no cap keeps them all. */
  lemma UpsertAppends(messages: seq<Message>, next: Message, maxMessages: nat)
    requires forall m :: m in messages ==> m.id != next.id
    ensures var r := Upsert(messages, next, maxMessages);
      && |r| == (if 0 < maxMessages <= |messages| then maxMessages else |messages| + 1) && r[|r| - 1] == next
      && r[..|r| - 1] == messages[|messages| - (|r| - 1)..]
  {
  }

  // ----- What an event leaves alone -----

  /** The id of the message that an event puts in. */
  function TargetId(e: Event): Option<string> {
    if e.ToolStart? || e.ToolUpdate? || e.ToolEnd? then Some(ToolLogId(e.turnId))
    else if PlainMessage(e).Some? then Some(PlainMessage(e).value.id)
    else None
  }

  /**
   * Every message of the result is the event's own, or was there before, unchanged but for the closing of the turn's
   * tool log.
   */
  lemma OthersUntouched(messages: seq<Message>, e: Event, maxMessages: nat, m: Message)
    requires WellFormed(messages, maxMessages) && maxMessages >= 1
    requires m in ApplyEvent(messages, e, maxMessages)
    requires m.id != ToolLogId(e.turnId) && TargetId(e) != Some(m.id)
    ensures m in messages
  {
    RemoveKeepsWellFormed(messages, e.turnId, maxMessages);
    if e.ToolStart? || e.ToolUpdate? || e.ToolEnd? {
      UpsertAdds(messages, ToolLogMessage(e, NextActivities(ActivitiesAt(messages, ToolLogId(e.turnId)), e)),
        maxMessages);
    } else {
      if PlainMessage(e).Some? {
        UpsertAdds(Prepared(messages, e), PlainMessage(e).value, maxMessages);
      }
      var removed := RemoveTransient(messages, e.turnId);
      if e.LifecycleEnd? || e.LifecycleError? {
        var i :| 0 <= i < |removed| && m == Closed(removed[i], e.turnId);
        assert removed[i] in removed;
      }
    }
  }

  /** A full list makes room by dropping its oldest message only. */
  lemma EvictionIsOldestFirst(messages: seq<Message>, next: Message, maxMessages: nat)
    requires |messages| <= maxMessages && maxMessages >= 1 && FindIndex(messages, next.id) < 0
    ensures Upsert(messages, next, maxMessages) ==
      (if |messages| == maxMessages then messages[1..] else messages) + [next]
  {
  }

  lemma UpsertKeepsOthers(messages: seq<Message>, next: Message, maxMessages: nat, m: Message)
    requires |messages| <= maxMessages && m in messages && m.id != next.id
    ensures m in Upsert(messages, next, maxMessages) || (|messages| == maxMessages && m == messages[0])
  {
    var j :| 0 <= j < |messages| && messages[j] == m;
    if FindIndex(messages, next.id) >= 0 {
      assert Upsert(messages, next, maxMessages)[j] == m;
    } else {
      EvictionIsOldestFirst(messages, next, maxMessages);
      assert j > 0 ==> messages[1..][j - 1] == m;
    }
  }

  /**
   * Every other message stays, but for the turn's transient activity and, when a full list needs room, the oldest one.
   */
  lemma OthersStay(messages: seq<Message>, e: Event, maxMessages: nat, m: Message)
    requires WellFormed(messages, maxMessages) && maxMessages >= 1 && m in messages
    requires m.id != ToolLogId(e.turnId) && m.id != ActivityId(e.turnId) && TargetId(e) != Some(m.id)
    ensures m in ApplyEvent(messages, e, maxMessages) ||
      (|Prepared(messages, e)| == maxMessages && m == Prepared(messages, e)[0])
  {
    if e.ToolStart? || e.ToolUpdate? || e.ToolEnd? {
      ToolOthersStay(messages, e, maxMessages, m);
    } else {
      PlainOthersStay(messages, e, maxMessages, m);
    }
  }

  lemma ToolOthersStay(messages: seq<Message>, e: Event, maxMessages: nat, m: Message)
    requires |messages| <= maxMessages && m in messages && m.id != ToolLogId(e.turnId)
    requires e.ToolStart? || e.ToolUpdate? || e.ToolEnd?
    ensures m in ApplyEvent(messages, e, maxMessages) || (|messages| == maxMessages && m == messages[0])
    ensures Prepared(messages, e) == messages
  {
    UpsertKeepsOthers(messages, ToolLogMessage(e, NextActivities(ActivitiesAt(messages, ToolLogId(e.turnId)), e)),
      maxMessages, m);
  }

  lemma PlainOthersStay(messages: seq<Message>, e: Event, maxMessages: nat, m: Message)
    requires WellFormed(messages, maxMessages) && m in messages
    requires !(e.ToolStart? || e.ToolUpdate? || e.ToolEnd?)
    requires m.id != ToolLogId(e.turnId) && m.id != ActivityId(e.turnId)
    requires PlainMessage(e).Some? ==> m.id != PlainMessage(e).value.id
    ensures m in ApplyEvent(messages, e, maxMessages) ||
      (|Prepared(messages, e)| == maxMessages && m == Prepared(messages, e)[0])
  {
    PreparedKeepsOthers(messages, e, maxMessages, m);
    if PlainMessage(e).Some? {
      UpsertKeepsOthers(Prepared(messages, e), PlainMessage(e).value, maxMessages, m);
    }
  }

  lemma PreparedKeepsOthers(messages: seq<Message>, e: Event, maxMessages: nat, m: Message)
    requires WellFormed(messages, maxMessages) && m in messages
    requires m.id != ToolLogId(e.turnId) && m.id != ActivityId(e.turnId)
    ensures m in Prepared(messages, e) && |Prepared(messages, e)| <= maxMessages
  {
    RemoveKeepsWellFormed(messages, e.turnId, maxMessages);
    var removed := RemoveTransient(messages, e.turnId);
    var i :| 0 <= i < |removed| && removed[i] == m;
    assert CloseToolActivity(removed, e.turnId)[i] == m;
  }

  /** After a turn has ended its transient activity is gone and its tool log is closed. */
  lemma TurnEndCloses(messages: seq<Message>, e: Event, maxMessages: nat, m: Message)
    requires WellFormed(messages, maxMessages) && e.LifecycleEnd?
    requires m in ApplyEvent(messages, e, maxMessages)
    ensures !TransientActivity(m, e.turnId)
    ensures m.id == ToolLogId(e.turnId) && m.toolActivities.Some? ==>
      m.text == Render(m.toolActivities.value, false) && m.transient == Some(false)
  {
    PreparedIsPrepared(messages, e, maxMessages);
  }
}
