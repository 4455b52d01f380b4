/**
 The event stream of one conversation turn (createConversationTurnStream in
 src/application/chat/conversation-engine.ts): callbacks of the running turn are turned into
 events, wrapped between an opening and a terminal status.
 */
module EventStream {
  import opened Text
  import opened AsyncQueue

  datatype Role = User | Assistant

  datatype Status = Thinking | RunningTool | DoneStatus(stopReason: string) | ErrorStatus(stopReason: string)

  datatype Event =
    | SessionResumed
    | SessionStarted
    | MessageStarted(role: Role)
    | MessageCompleted(role: Role, content: string)
    | MessageDelta(text: string)
    | StatusChanged(status: Status)
    | Thought(text: string)
    | ToolCalled(tool: string)
    | ToolOutput(tool: string, output: string, partial: bool)
    | ToolCompleted(tool: string, success: bool)
    | ApprovalRequested(id: string)
    | ApprovalResolved(id: string, allow: bool)
    | QuestionRequested(id: string)
    | QuestionResolved(id: string)
    | Usage
    | VerificationCompleted(ok: bool, blocked: bool)
    | Failure(message: string, stopReason: string)

  /** What the running turn reports; an approval or a question is reported twice, asked and answered. */
  datatype Callback =
    | OnIteration
    | OnToken(token: string)
    | OnThinkingToken(token: string)
    | OnToolStart(tool: string)
    | OnToolStream(tool: string, chunk: string)
    | OnToolEnd(tool: string, output: string, success: bool)
    | OnApprovalAsked(id: string)
    | OnApprovalAnswered(id: string, allow: bool)
    | OnQuestionAsked(id: string)
    | OnQuestionAnswered(id: string)
    | OnUsage
    | OnVerification(ok: bool, blocked: bool)
    | OnOther

  datatype TurnEnd =
    | Returned(response: string, stopReason: string)
    | Stopped(message: string, stopReason: string)     // a ConversationEngineStopError
    | Threw(message: string)                           // any other error

  /** `started` and `text` are what the stream has seen of the assistant's answer. */
  datatype Progress = Progress(started: bool, text: string)

  /** The last 300 characters already occur in the first 1200 of a text longer than 2000. */
  predicate Repeats(text: string) {
    |text| > 2000 && Contains(text[..1200], text[|text| - 300..])
  }

  function EnsureStarted(p: Progress): seq<Event> {
    if p.started then [] else [MessageStarted(Assistant)]
  }

  function After(p: Progress, cb: Callback): Progress {
    if cb.OnToken? then Progress(true, p.text + cb.token) else p
  }

  /** The events of one callback.  A token that makes the text repeat throws before its delta. */
  function Emitted(p: Progress, cb: Callback): seq<Event> {
    match cb
    case OnToken(token) =>
      EnsureStarted(p) + if Repeats(p.text + token) then [] else [MessageDelta(token)]
    case _ => PlainEvents(cb)
  }

  function PlainEvents(cb: Callback): seq<Event> {
    match cb
    case OnIteration => [StatusChanged(Thinking)]
    case OnToken(_) => []
    case OnThinkingToken(token) => [Thought(token)]
    case OnToolStart(tool) => [ToolCalled(tool), StatusChanged(RunningTool)]
    case OnToolStream(tool, chunk) => [ToolOutput(tool, chunk, true)]
    case OnToolEnd(tool, output, success) =>
      [ToolOutput(tool, output, false), ToolCompleted(tool, success), StatusChanged(Thinking)]
    case OnApprovalAsked(id) => [ApprovalRequested(id)]
    case OnApprovalAnswered(id, allow) => [ApprovalResolved(id, allow)]
    case OnQuestionAsked(id) => [QuestionRequested(id)]
    case OnQuestionAnswered(id) => [QuestionResolved(id)]
    case OnUsage => [Usage]
    case OnVerification(ok, blocked) => [VerificationCompleted(ok, blocked)]
    case OnOther => []
  }

  function Body(p: Progress, cbs: seq<Callback>): seq<Event>
    decreases cbs
  {
    if cbs == [] then [] else Emitted(p, cbs[0]) + Body(After(p, cbs[0]), cbs[1..])
  }

  function AfterAll(p: Progress, cbs: seq<Callback>): Progress
    decreases cbs
  {
    if cbs == [] then p else AfterAll(After(p, cbs[0]), cbs[1..])
  }

  function Opening(resumed: bool, userMessage: string): seq<Event> {
    [if resumed then SessionResumed else SessionStarted, MessageStarted(User),
     MessageCompleted(User, userMessage), StatusChanged(Thinking)]
  }

  function StopReason(end: TurnEnd): string {
    match end
    case Returned(_, r) => r
    case Stopped(_, r) => r
    case Threw(_) => "provider_error"
  }

  function Closing(end: TurnEnd): seq<Event> {
    if end.Returned? then
      [MessageCompleted(Assistant, end.response), StatusChanged(DoneStatus(StopReason(end)))]
    else
      [Failure(end.message, StopReason(end)), StatusChanged(ErrorStatus(StopReason(end)))]
  }

  /** The whole stream of a turn. */
  function Stream(resumed: bool, userMessage: string, cbs: seq<Callback>, end: TurnEnd): seq<Event> {
    var p := AfterAll(Progress(false, ""), cbs);
    Opening(resumed, userMessage)
    + (Body(Progress(false, ""), cbs) + (if end.Returned? then EnsureStarted(p) else []))
    + Closing(end)
  }

  // ----- the grammar -----

  predicate IsTerminal(e: Event) {
    e.StatusChanged? && (e.status.DoneStatus? || e.status.ErrorStatus?)
  }

  /** An event that may stand between the opening and the closing. */
  predicate IsBodyEvent(e: Event) {
    && !IsTerminal(e) && !e.SessionResumed? && !e.SessionStarted? && !e.Failure?
    && !e.MessageCompleted? && e != MessageStarted(User)
  }

  predicate AssistantStartAt(events: seq<Event>, i: int) {
    0 <= i < |events| && events[i] == MessageStarted(Assistant)
  }

  ghost predicate HasStart(body: seq<Event>) {
    exists i :: AssistantStartAt(body, i)
  }

  /** At most one assistant start, before every delta. */
  ghost predicate WellStarted(body: seq<Event>) {
    && (forall i, j :: AssistantStartAt(body, i) && AssistantStartAt(body, j) ==> i == j)
    && (forall j :: 0 <= j < |body| && body[j].MessageDelta? ==> exists i :: i < j && AssistantStartAt(body, i))
  }

  ghost predicate BodyMatches(body: seq<Event>) {
    WellStarted(body) && forall i :: 0 <= i < |body| ==> IsBodyEvent(body[i])
  }

  ghost predicate StreamMatches(events: seq<Event>) {
    && |events| >= 6
    && (events[0].SessionResumed? || events[0].SessionStarted?)
    && events[1] == MessageStarted(User)
    && events[2].MessageCompleted? && events[2].role.User?
    && events[3] == StatusChanged(Thinking)
    && BodyMatches(events[4..|events| - 2])
    && var last, beforeLast := events[|events| - 1], events[|events| - 2];
       || (&& beforeLast.MessageCompleted? && beforeLast.role.Assistant?
           && last.StatusChanged? && last.status.DoneStatus?
           && HasStart(events[4..|events| - 2]))
       || (&& beforeLast.Failure? && last == StatusChanged(ErrorStatus(beforeLast.stopReason)))
  }

  // ----- every stream matches -----

  /** A body that starts from `p`: a start only if none was seen, deltas only after one. */
  ghost predicate BodyFrom(p: Progress, body: seq<Event>) {
    && (forall i :: 0 <= i < |body| ==> IsBodyEvent(body[i]))
    && (p.started ==> forall i :: !AssistantStartAt(body, i))
    && (forall i, j :: AssistantStartAt(body, i) && AssistantStartAt(body, j) ==> i == j)
    && (!p.started ==> forall j :: 0 <= j < |body| && body[j].MessageDelta? ==>
          exists i :: i < j && AssistantStartAt(body, i))
  }

  /** Putting together the events of one callback and those of the later ones. */
  lemma Prepend(p: Progress, q: Progress, first: seq<Event>, rest: seq<Event>)
    requires BodyFrom(p, first) && BodyFrom(q, rest)
    requires q.started <==> p.started || HasStart(first)
    ensures BodyFrom(p, first + rest)
    ensures HasStart(first + rest) <==> HasStart(first) || HasStart(rest)
  {
    var all := first + rest;
    forall i ensures AssistantStartAt(all, i) <==> AssistantStartAt(first, i) || AssistantStartAt(rest, i - |first|) {
    }
    if HasStart(first) {
      var i :| AssistantStartAt(first, i);
      assert AssistantStartAt(all, i);
    }
    if HasStart(rest) {
      var i :| AssistantStartAt(rest, i);
      assert AssistantStartAt(all, i + |first|);
    }
    if !p.started {
      forall j | 0 <= j < |all| && all[j].MessageDelta?
        ensures exists i :: i < j && AssistantStartAt(all, i)
      {
        if j >= |first| && !HasStart(first) {
          var i :| i < j - |first| && AssistantStartAt(rest, i);
          assert AssistantStartAt(all, i + |first|);
        } else if j < |first| {
          var i :| i < j && AssistantStartAt(first, i);
          assert AssistantStartAt(all, i);
        } else {
          var i :| AssistantStartAt(first, i);
          assert AssistantStartAt(all, i);
        }
      }
    }
  }

  lemma EmittedFrom(p: Progress, cb: Callback)
    ensures BodyFrom(p, Emitted(p, cb))
    ensures After(p, cb).started <==> p.started || HasStart(Emitted(p, cb))
  {
    var es := Emitted(p, cb);
    if cb.OnToken? && !p.started {
      assert AssistantStartAt(es, 0);
    }
  }

  lemma {:induction false} BodyIsFrom(p: Progress, cbs: seq<Callback>)
    ensures BodyFrom(p, Body(p, cbs))
    ensures AfterAll(p, cbs).started <==> p.started || HasStart(Body(p, cbs))
    decreases cbs
  {
    if cbs != [] {
      var q := After(p, cbs[0]);
      EmittedFrom(p, cbs[0]);
      BodyIsFrom(q, cbs[1..]);
      Prepend(p, q, Emitted(p, cbs[0]), Body(q, cbs[1..]));
    }
  }

  /** Whatever the callbacks and however the turn ends, the stream matches the grammar. */
  lemma EveryStreamMatches(resumed: bool, userMessage: string, cbs: seq<Callback>, end: TurnEnd)
    ensures StreamMatches(Stream(resumed, userMessage, cbs, end))
  {
    var p0 := Progress(false, "");
    var p := AfterAll(p0, cbs);
    var start := if end.Returned? then EnsureStarted(p) else [];
    var body := Body(p0, cbs) + start;
    BodyIsFrom(p0, cbs);
    assert end.Returned? && !p.started ==> AssistantStartAt(start, 0);
    assert BodyFrom(p, start);
    Prepend(p0, p, Body(p0, cbs), start);
    ParsesAs(resumed, userMessage, body, end);
  }

  lemma ParsesAs(resumed: bool, userMessage: string, body: seq<Event>, end: TurnEnd)
    requires BodyMatches(body) && (end.Returned? ==> HasStart(body))
    ensures StreamMatches(Opening(resumed, userMessage) + body + Closing(end))
  {
  }

  /** The terminal status is the last event and the only one. */
  lemma OneTerminalStatus(events: seq<Event>)
    requires StreamMatches(events)
    ensures forall i :: 0 <= i < |events| ==> (IsTerminal(events[i]) <==> i == |events| - 1)
  {
  }

  /** Nothing is lost or reordered: without the assistant's start, the body is the events of the callbacks. */
  function WithoutStarts(events: seq<Event>): seq<Event> {
    if events == [] then []
    else (if events[0] == MessageStarted(Assistant) then [] else [events[0]]) + WithoutStarts(events[1..])
  }

  /** The events a callback stands for; a token does so unless it makes the text so far repeat. */
  function Reported(text: string, cbs: seq<Callback>): seq<Event>
    decreases cbs
  {
    if cbs == [] then []
    else if cbs[0].OnToken? then
      (if Repeats(text + cbs[0].token) then [] else [MessageDelta(cbs[0].token)])
      + Reported(text + cbs[0].token, cbs[1..])
    else PlainEvents(cbs[0]) + Reported(text, cbs[1..])
  }

  lemma {:induction false} WithoutStartsAppend(a: seq<Event>, b: seq<Event>)
    ensures WithoutStarts(a + b) == WithoutStarts(a) + WithoutStarts(b)
  {
    if a == [] {
      assert a + b == b;
    } else {
      assert (a + b)[1..] == a[1..] + b;
      WithoutStartsAppend(a[1..], b);
    }
  }

  lemma {:induction false} NoStartsToDrop(events: seq<Event>)
    requires forall i :: 0 <= i < |events| ==> events[i] != MessageStarted(Assistant)
    ensures WithoutStarts(events) == events
  {
    if events != [] {
      NoStartsToDrop(events[1..]);
    }
  }

  lemma {:induction false} NothingLost(p: Progress, cbs: seq<Callback>)
    ensures WithoutStarts(Body(p, cbs)) == Reported(p.text, cbs)
    decreases cbs
  {
    hide Repeats, EnsureStarted;
    if cbs != [] {
      var cb := cbs[0];
      WithoutStartsAppend(Emitted(p, cb), Body(After(p, cb), cbs[1..]));
      NothingLost(After(p, cb), cbs[1..]);
      if cb.OnToken? {
        DeltaOnly(p, cb.token);
      } else {
        NoStartsToDrop(PlainEvents(cb));
      }
    }
  }

  lemma DeltaOnly(p: Progress, token: string)
    ensures WithoutStarts(Emitted(p, OnToken(token)))
            == if Repeats(p.text + token) then [] else [MessageDelta(token)]
  {
    var delta := if Repeats(p.text + token) then [] else [MessageDelta(token)];
    WithoutStartsAppend(EnsureStarted(p), delta);
    NoStartsToDrop(delta);
    assert [MessageStarted(Assistant)][1..] == [];
  }

  // ----- the producer -----

  class ConversationTurnStream {
    const eventQueue: AsyncEventQueue<Event>
    var recorded: seq<Event>               // what the session has recorded
    var assistantStarted: bool
    var assistantText: string

    ghost predicate Valid()
      reads this, eventQueue
    {
      eventQueue.Valid() && AllDefined(eventQueue.spec.pushed)
    }

    /** The events pushed before the queue was closed, in order. */
    ghost function Pushed(): seq<Value<Event>>
      reads eventQueue
    {
      eventQueue.spec.pushed
    }

    ghost function Current(): Progress
      reads this
    {
      Progress(assistantStarted, assistantText)
    }

    constructor ()
      ensures Valid() && fresh(eventQueue)
      ensures eventQueue.spec == Spec([], 0, false) && recorded == [] && Current() == Progress(false, "")
    {
      eventQueue := new AsyncEventQueue();
      recorded, assistantStarted, assistantText := [], false, "";
    }

    method EmitRecord(event: Event)
      requires Valid()
      modifies this, eventQueue
      ensures Valid() && recorded == old(recorded) + [event] && Current() == old(Current())
      ensures eventQueue.spec == SpecStep(old(eventQueue.spec), Push(Defined(event)))
    {
      recorded := recorded + [event];
      eventQueue.PushValue(Defined(event));
    }

    method EmitAll(events: seq<Event>)
      requires Valid()
      modifies this, eventQueue
      ensures Valid() && recorded == old(recorded) + events && Current() == old(Current())
      ensures eventQueue.spec == AfterPushes(old(eventQueue.spec), events)
    {
      var i := 0;
      while i < |events|
        invariant 0 <= i <= |events| && Valid()
        invariant recorded == old(recorded) + events[..i] && Current() == old(Current())
        invariant AfterPushes(eventQueue.spec, events[i..]) == AfterPushes(old(eventQueue.spec), events)
      {
        EmitRecord(events[i]);
        assert events[..i + 1] == events[..i] + [events[i]];
        assert events[i..][1..] == events[i + 1..];
        i := i + 1;
      }
      assert events[..i] == events;
    }

    method EnsureAssistantStarted()
      requires Valid()
      modifies this, eventQueue
      ensures Valid() && recorded == old(recorded) + EnsureStarted(old(Current()))
      ensures Current() == Progress(true, old(assistantText))
      ensures eventQueue.spec == AfterPushes(old(eventQueue.spec), EnsureStarted(old(Current())))
    {
      if assistantStarted {
        assert recorded + [] == recorded;
        return;
      }
      assistantStarted := true;
      EmitRecord(MessageStarted(Assistant));
      assert [MessageStarted(Assistant)][1..] == [];
    }

    method HandleCallback(cb: Callback)
      requires Valid()
      modifies this, eventQueue
      ensures Valid() && recorded == old(recorded) + Emitted(old(Current()), cb)
      ensures Current() == After(old(Current()), cb)
      ensures eventQueue.spec == AfterPushes(old(eventQueue.spec), Emitted(old(Current()), cb))
    {
      if cb.OnToken? {
        EnsureAssistantStarted();
        assistantText := assistantText + cb.token;
        if !Repeats(assistantText) {
          AfterPushesAppend(old(eventQueue.spec), EnsureStarted(old(Current())), [MessageDelta(cb.token)]);
          EmitAll([MessageDelta(cb.token)]);
        }
      } else {
        EmitAll(PlainEvents(cb));
      }
    }

    method HandleCallbacks(cbs: seq<Callback>)
      requires Valid()
      modifies this, eventQueue
      ensures Valid() && recorded == old(recorded) + Body(old(Current()), cbs)
      ensures Current() == AfterAll(old(Current()), cbs)
      ensures eventQueue.spec == AfterPushes(old(eventQueue.spec), Body(old(Current()), cbs))
      decreases |cbs|
    {
      if cbs == [] {
        assert recorded + [] == recorded;
        return;
      }
      HandleCallback(cbs[0]);
      var rest := cbs[1..];
      AfterPushesAppend(old(eventQueue.spec), Emitted(old(Current()), cbs[0]), Body(Current(), rest));
      Assoc(old(recorded), Emitted(old(Current()), cbs[0]), Body(Current(), rest));
      HandleCallbacks(rest);
    }

    /** A whole turn, up to its terminal status. */
    method EmitTurn(resumed: bool, userMessage: string, cbs: seq<Callback>, end: TurnEnd)
      requires Valid() && eventQueue.spec == Spec([], 0, false) && recorded == []
      requires Current() == Progress(false, "")
      modifies this, eventQueue
      ensures Valid() && recorded == Stream(resumed, userMessage, cbs, end)
      ensures eventQueue.spec == AfterPushes(Spec([], 0, false), Stream(resumed, userMessage, cbs, end))
    {
      ghost var spec0 := eventQueue.spec;
      EmitAll(Opening(resumed, userMessage));
      ghost var opening := recorded;
      assert opening == Opening(resumed, userMessage);
      HandleCallbacks(cbs);
      ghost var body := Body(Progress(false, ""), cbs);
      AfterPushesAppend(spec0, opening, body);
      ghost var start: seq<Event> := [];
      if end.Returned? {
        start := EnsureStarted(Current());
        EnsureAssistantStarted();
      } else {
        assert recorded + [] == recorded;
      }
      AfterPushesAppend(spec0, opening + body, start);
      Assoc(opening, body, start);
      ghost var sofar := recorded;
      EmitAll(Closing(end));
      AfterPushesAppend(spec0, sofar, Closing(end));
    }

    /** A turn and its close; callbacks that come later find the queue closed. */
    method RunTurn(resumed: bool, userMessage: string, cbs: seq<Callback>, end: TurnEnd, late: seq<Callback>)
      requires Valid() && eventQueue.spec == Spec([], 0, false) && recorded == []
      requires Current() == Progress(false, "")
      modifies this, eventQueue
      ensures Valid() && eventQueue.closed
      ensures Pushed() == Wrap(Stream(resumed, userMessage, cbs, end))
      ensures StreamMatches(Stream(resumed, userMessage, cbs, end))
      ensures Stream(resumed, userMessage, cbs, end) <= recorded
    {
      hide Stream, StreamMatches, Body;
      EmitTurn(resumed, userMessage, cbs, end);
      EveryStreamMatches(resumed, userMessage, cbs, end);
      PushedFromStart(recorded);
      eventQueue.CloseQueue();
      HandleLateCallbacks(late);
    }

    /** The session still records what the closed queue drops. */
    method HandleLateCallbacks(late: seq<Callback>)
      requires Valid() && eventQueue.spec.closed
      modifies this, eventQueue
      ensures Valid() && eventQueue.spec == old(eventQueue.spec)
      ensures recorded == old(recorded) + Body(old(Current()), late)
    {
      ClosedPushes(eventQueue.spec, Body(Current(), late));
      HandleCallbacks(late);
    }
  }

  ghost function Wrap(events: seq<Event>): seq<Value<Event>> {
    seq(|events|, i requires 0 <= i < |events| => Defined(events[i]))
  }

  ghost function AfterPushes(s: Spec<Event>, events: seq<Event>): Spec<Event>
    decreases events
  {
    if events == [] then s else AfterPushes(SpecStep(s, Push(Defined(events[0]))), events[1..])
  }

  lemma {:induction false} AfterPushesAppend(s: Spec<Event>, a: seq<Event>, b: seq<Event>)
    ensures AfterPushes(s, a + b) == AfterPushes(AfterPushes(s, a), b)
    decreases a
  {
    if a == [] {
      assert a + b == b;
    } else {
      assert (a + b)[1..] == a[1..] + b;
      AfterPushesAppend(SpecStep(s, Push(Defined(a[0]))), a[1..], b);
    }
  }

  lemma {:induction false} ClosedPushes(s: Spec<Event>, events: seq<Event>)
    requires s.closed
    ensures AfterPushes(s, events) == s
    decreases events
  {
    if events != [] {
      ClosedPushes(s, events[1..]);
    }
  }

  lemma {:induction false} OpenPushes(s: Spec<Event>, events: seq<Event>)
    requires !s.closed
    ensures AfterPushes(s, events) == s.(pushed := s.pushed + Wrap(events))
    decreases events
  {
    if events == [] {
      assert s.pushed + Wrap([]) == s.pushed;
    } else {
      var t := SpecStep(s, Push(Defined(events[0])));
      OpenPushes(t, events[1..]);
      assert s.pushed + Wrap(events) == t.pushed + Wrap(events[1..]);
    }
  }

  lemma PushedFromStart(events: seq<Event>)
    ensures AfterPushes(Spec([], 0, false), events) == Spec(Wrap(events), 0, false)
  {
    OpenPushes(Spec([], 0, false), events);
    assert [] + Wrap(events) == Wrap(events);
  }
}
