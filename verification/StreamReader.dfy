/**
 What a reader can tell from the stream of a turn (streamConversationTurn in
 src/application/chat/conversation-engine.ts): how it began, every callback with its arguments, and how it
 ended.
 */
module StreamReader {
  import opened Options
  import opened Text
  import opened EventStream

  // ----- the callbacks -----

  /** The callback that a body begins with, and how many events it takes; none for an event of another kind. */
  function ReadOne(events: seq<Event>): (r: Option<(Callback, nat)>)
    requires events != []
    ensures r.Some? ==> 0 < r.value.1 <= |events|
  {
    match events[0]
    case StatusChanged(status) => if status == Thinking then Some((OnIteration, 1)) else None
    case MessageDelta(text) => Some((OnToken(text), 1))
    case Thought(text) => Some((OnThinkingToken(text), 1))
    case ToolCalled(tool) =>
      if 1 < |events| && events[1] == StatusChanged(RunningTool) then Some((OnToolStart(tool), 2)) else None
    case ToolOutput(tool, output, partial) =>
      if partial then Some((OnToolStream(tool, output), 1))
      else if 2 < |events| && events[1].ToolCompleted? && events[1].tool == tool && events[2] == StatusChanged(Thinking)
      then Some((OnToolEnd(tool, output, events[1].success), 3))
      else None
    case ApprovalRequested(id) => Some((OnApprovalAsked(id), 1))
    case ApprovalResolved(id, allow) => Some((OnApprovalAnswered(id, allow), 1))
    case QuestionRequested(id) => Some((OnQuestionAsked(id), 1))
    case QuestionResolved(id) => Some((OnQuestionAnswered(id), 1))
    case Usage => Some((OnUsage, 1))
    case VerificationCompleted(ok, blocked) => Some((OnVerification(ok, blocked), 1))
    case _ => None
  }

  function Read(events: seq<Event>): Option<seq<Callback>>
    decreases |events|
  {
    if events == [] then Some([])
    else
      match ReadOne(events)
      case None => None
      case Some((callback, n)) =>
        match Read(events[n..])
        case None => None
        case Some(rest) => Some([callback] + rest)
  }

  /** The tail of 300 characters stands in the first 1200 of a text of more than 2000. */
  ghost predicate LoopsBack(text: string) {
    && |text| > 2000
    && var tail := text[|text| - 300..];
       exists i: nat :: i <= 900 && At(text, tail, i)
  }

  lemma LoopsBackExactly(text: string)
    ensures Repeats(text) <==> LoopsBack(text)
  {
    if |text| > 2000 {
      var head, tail := text[..1200], text[|text| - 300..];
      forall i: nat ensures At(head, tail, i) <==> i <= 900 && At(text, tail, i) {
        if i <= 900 {
          assert head[i..i + 300] == text[i..i + 300];
        }
      }
      if i: nat :| i <= 900 && At(text, tail, i) {
        IndexOfAtMost(head, tail, 0, i);
      }
    }
  }

  /** The callbacks that leave a trace in the stream: all but the silent ones and tokens that make the text
      loop back. */
  ghost function Visible(text: string, cbs: seq<Callback>): seq<Callback>
    decreases cbs
  {
    if cbs == [] then []
    else
      match cbs[0]
      case OnOther => Visible(text, cbs[1..])
      case OnToken(token) =>
        (if LoopsBack(text + token) then [] else [cbs[0]]) + Visible(text + token, cbs[1..])
      case _ => [cbs[0]] + Visible(text, cbs[1..])
  }

  lemma ReadNext(cb: Callback, events: seq<Event>, rest: seq<Event>)
    requires !cb.OnOther?
    requires events == (if cb.OnToken? then [MessageDelta(cb.token)] else PlainEvents(cb)) + rest
    requires Read(rest).Some?
    ensures Read(events) == Some([cb] + Read(rest).value)
  {
    hide Read;
    var n := |events| - |rest|;
    assert events[n..] == rest;
    assert ReadOne(events) == Some((cb, n));
    ReadRest(events, cb, n);
  }

  lemma ReadRest(events: seq<Event>, cb: Callback, n: nat)
    requires events != [] && ReadOne(events) == Some((cb, n)) && Read(events[n..]).Some?
    ensures Read(events) == Some([cb] + Read(events[n..]).value)
  {
    hide ReadOne;
  }

  lemma {:induction false} ReportedIsRead(text: string, cbs: seq<Callback>)
    ensures Read(Reported(text, cbs)) == Some(Visible(text, cbs))
    decreases cbs
  {
    hide Repeats, LoopsBack, ReadOne, PlainEvents;
    if cbs != [] {
      var cb := cbs[0];
      if cb.OnToken? {
        LoopsBackExactly(text + cb.token);
        ReportedIsRead(text + cb.token, cbs[1..]);
        var rest := Reported(text + cb.token, cbs[1..]);
        assert [] + rest == rest;
        assert [] + Visible(text + cb.token, cbs[1..]) == Visible(text + cb.token, cbs[1..]);
        ReadNext(cb, [MessageDelta(cb.token)] + rest, rest);
      } else {
        ReportedIsRead(text, cbs[1..]);
        var rest := Reported(text, cbs[1..]);
        if cb.OnOther? {
          SilentCallback(rest);
        } else {
          ReadNext(cb, PlainEvents(cb) + rest, rest);
        }
      }
    }
  }

  lemma SilentCallback(rest: seq<Event>)
    ensures PlainEvents(OnOther) + rest == rest
  {
  }

  // ----- the whole stream -----

  /** What stands between the opening and the ending of a stream. */
  function Middle(events: seq<Event>): seq<Event>
    requires |events| >= 6
  {
    events[4..|events| - 2]
  }

  lemma StreamParts(resumed: bool, userMessage: string, cbs: seq<Callback>, end: TurnEnd)
    ensures var s := Stream(resumed, userMessage, cbs, end);
            && |s| >= 6
            && WithoutStarts(Middle(s)) == Reported("", cbs)
            && s[..4] == Opening(resumed, userMessage) && s[|s| - 2..] == Closing(end)
  {
    var p0 := Progress(false, "");
    var due := if end.Returned? then EnsureStarted(AfterAll(p0, cbs)) else [];
    var s, body := Stream(resumed, userMessage, cbs, end), Body(p0, cbs) + due;
    NothingLost(p0, cbs);
    WithoutStartsAppend(Body(p0, cbs), due);
    NoDueStart(due);
    hide Body, Reported, WithoutStarts, AfterAll;
    assert Middle(s) == body;
    assert Reported("", cbs) + [] == Reported("", cbs);
  }

  lemma NoDueStart(due: seq<Event>)
    requires due == [] || due == [MessageStarted(Assistant)]
    ensures WithoutStarts(due) == []
  {
    assert [MessageStarted(Assistant)][1..] == [];
  }

  /** Every stream can be read: whether the session was resumed, the user's message, every visible callback with
      its arguments in order, and the response or the error with the stop reason. */
  lemma StreamIsRead(resumed: bool, userMessage: string, cbs: seq<Callback>, end: TurnEnd)
    ensures var s := Stream(resumed, userMessage, cbs, end);
            && |s| >= 6
            && s[0] == (if resumed then SessionResumed else SessionStarted)
            && s[1] == MessageStarted(User) && s[2] == MessageCompleted(User, userMessage)
            && s[3] == StatusChanged(Thinking)
            && Read(WithoutStarts(Middle(s))) == Some(Visible("", cbs))
            && match end
               case Returned(response, reason) =>
                 && s[|s| - 2] == MessageCompleted(Assistant, response)
                 && s[|s| - 1] == StatusChanged(DoneStatus(reason))
               case Stopped(message, reason) =>
                 && s[|s| - 2] == Failure(message, reason)
                 && s[|s| - 1] == StatusChanged(ErrorStatus(reason))
               case Threw(message) =>
                 && s[|s| - 2] == Failure(message, "provider_error")
                 && s[|s| - 1] == StatusChanged(ErrorStatus("provider_error"))
  {
    StreamParts(resumed, userMessage, cbs, end);
    ReportedIsRead("", cbs);
    var s := Stream(resumed, userMessage, cbs, end);
    hide Stream, Middle, Reported, WithoutStarts, Read, Visible;
    assert forall i :: 0 <= i < 4 ==> s[i] == s[..4][i];
    assert s[|s| - 2] == s[|s| - 2..][0] && s[|s| - 1] == s[|s| - 2..][1];
  }
}
