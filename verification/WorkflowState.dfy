/**
 The approved plan of a session: a cell that a planning turn fills and the next turn consumes
 (src/application/chat/turn-intake.ts, src/application/chat/run-chat.ts).
 */
module WorkflowState {
  import opened Options
  import opened Text
  import EventStream
  import TurnLoop

  datatype Mode = PlanMode | ReviewMode

  /** The command of a turn; status, permissions, tools, compact and usage are answered directly, without a model. */
  datatype Route =
    | NoCommand
    | Direct
    | Implement(input: string)
    | Skill(name: string, input: string)
    | Workflow(mode: Mode, input: string)

  datatype Plan = Plan(rawGoal: string, normalizedGoal: string)

  /** How a turn ended: its stream of events ran out, an agent without a stream answered, or something threw. */
  datatype Ending = Streamed(events: seq<EventStream.Event>) | Answered | Threw

  datatype Turn = Turn(route: Route, ending: Ending)

  // ----- which endings are taken as a finished turn -----

  /** The stop reason that is remembered after an event: an error and a terminal status bring a new one. */
  function Observe(reason: Option<string>, e: EventStream.Event): Option<string> {
    match e
    case Failure(_, stopReason) => Some(stopReason)
    case StatusChanged(DoneStatus(stopReason)) => Some(stopReason)
    case StatusChanged(ErrorStatus(stopReason)) => Some(stopReason)
    case _ => reason
  }

  function TerminalReason(events: seq<EventStream.Event>): Option<string> {
    if events == [] then None
    else Observe(TerminalReason(events[..|events| - 1]), events[|events| - 1])
  }

  /** Only a throw, a denied permission and a provider error keep a turn from being recorded. */
  predicate Finishes(ending: Ending) {
    match ending
    case Streamed(events) =>
      TerminalReason(events) != Some("permission_denied") && TerminalReason(events) != Some("provider_error")
    case Answered => true
    case Threw => false
  }

  /** The stream of a turn leaves the stop reason that the turn ended with. */
  lemma StreamTellsReason(resumed: bool, message: string, cbs: seq<EventStream.Callback>, end: EventStream.TurnEnd)
    ensures TerminalReason(EventStream.Stream(resumed, message, cbs, end)) == Some(EventStream.StopReason(end))
  {
    var events := EventStream.Stream(resumed, message, cbs, end);
    var last := EventStream.Closing(end)[1];
    assert events[|events| - 1] == last;
    assert last.StatusChanged?;
  }

  /** The stop reason in the stream of a turn whose loop stopped; what tools and providers throw is a provider error. */
  function ReasonText(reason: TurnLoop.StopReason): string {
    match reason
    case Completed => "completed"
    case UserCancelled => "user_cancelled"
    case MaxTurns => "max_turns"
    case MaxWallTime => "max_wall_time"
    case MaxToolCalls => "max_tool_calls"
    case DuplicateToolCall => "duplicate_tool_call"
    case PermissionDenied => "permission_denied"
    case VerificationFailed => "verification_failed"
    case NoProgress => "no_progress"
    case ProviderError => "provider_error"
    case ToolError => "provider_error"
  }

  /** A turn is finished for every way its loop can stop, except for a denied permission and what was thrown. */
  lemma FinishesExactly(
      resumed: bool, message: string, cbs: seq<EventStream.Callback>, end: EventStream.TurnEnd,
      reason: TurnLoop.StopReason)
    requires EventStream.StopReason(end) == ReasonText(reason)
    ensures Finishes(Streamed(EventStream.Stream(resumed, message, cbs, end)))
            <==> !reason.PermissionDenied? && !reason.ProviderError? && !reason.ToolError?
  {
    StreamTellsReason(resumed, message, cbs, end);
    FirstCharsTell(reason);
  }

  lemma FirstCharsTell(reason: TurnLoop.StopReason)
    ensures ReasonText(reason) == "permission_denied" <==> reason.PermissionDenied?
    ensures ReasonText(reason) == "provider_error" <==> reason.ProviderError? || reason.ToolError?
  {
    assert "permission_denied"[1] == 'e' && "provider_error"[1] == 'r';
    assert ReasonText(reason)[0] == 'p' <==> reason.PermissionDenied? || reason.ProviderError? || reason.ToolError?;
  }

  // ----- one turn -----

  predicate IsApproved(workflow: Option<Plan>, input: string) {
    workflow.Some? && workflow.value.normalizedGoal == Normalize(input)
  }

  /** An implementation without an approved plan becomes a planning turn. */
  function EffectiveRoute(workflow: Option<Plan>, route: Route): Route {
    if route.Implement? && !IsApproved(workflow, route.input) then Workflow(PlanMode, route.input) else route
  }

  predicate InvalidatesWorkflow(route: Route) {
    !route.Direct?
  }

  predicate IsPlanning(effective: Route) {
    effective.Workflow? && effective.mode == PlanMode
  }

  predicate RecordsPlan(effective: Route, ending: Ending) {
    IsPlanning(effective) && Finishes(ending)
  }

  function AfterTurn(workflow: Option<Plan>, turn: Turn): Option<Plan> {
    var effective := EffectiveRoute(workflow, turn.route);
    if RecordsPlan(effective, turn.ending) then Some(Plan(effective.input, Normalize(effective.input)))
    else if InvalidatesWorkflow(effective) then None
    else workflow
  }

  /** The cell after the turns of a session that began without a plan. */
  function AfterTurns(turns: seq<Turn>): Option<Plan> {
    if turns == [] then None else AfterTurn(AfterTurns(turns[..|turns| - 1]), turns[|turns| - 1])
  }

  /** The route that turn `n` takes. */
  function Taken(turns: seq<Turn>, n: nat): Route
    requires n < |turns|
  {
    EffectiveRoute(AfterTurns(turns[..n]), turns[n].route)
  }

  /** Turn `n` is an implementation that keeps its route. */
  predicate Kept(turns: seq<Turn>, n: nat)
    requires n < |turns|
  {
    Taken(turns, n).Implement?
  }

  /** Turn `n` records a plan for a goal. */
  predicate Records(turns: seq<Turn>, n: nat, goal: string)
    requires n < |turns|
  {
    RecordsPlan(Taken(turns, n), turns[n].ending) && Normalize(Taken(turns, n).input) == Normalize(goal)
  }

  /** The latest of the first `n` turns that is not a direct command, or -1. */
  function LatestTurn(turns: seq<Turn>, n: nat): (k: int)
    requires n <= |turns|
    ensures -1 <= k < n
    ensures k >= 0 ==> !turns[k].route.Direct?
    ensures forall j :: k < j < n ==> turns[j].route.Direct?
  {
    if n == 0 then -1
    else if !turns[n - 1].route.Direct? then n - 1
    else LatestTurn(turns, n - 1)
  }

  /** The cell holds what the latest turn that is not direct recorded. */
  lemma {:induction false} CellIsLatest(turns: seq<Turn>, n: nat)
    requires n <= |turns|
    ensures var k := LatestTurn(turns, n);
            AfterTurns(turns[..n])
            == if k >= 0 && RecordsPlan(Taken(turns, k), turns[k].ending)
               then Some(Plan(Taken(turns, k).input, Normalize(Taken(turns, k).input)))
               else None
  {
    if n > 0 {
      assert turns[..n][..n - 1] == turns[..n - 1] && turns[..n][n - 1] == turns[n - 1];
      CellIsLatest(turns, n - 1);
    }
  }

  /** An implementation keeps its route exactly when the latest turn that is not direct recorded a plan for its goal. */
  lemma ImplementKeptExactly(turns: seq<Turn>, n: nat)
    requires n < |turns| && turns[n].route.Implement?
    ensures var k := LatestTurn(turns, n);
            Kept(turns, n) <==> k >= 0 && Records(turns, k, turns[n].route.input)
  {
    CellIsLatest(turns, n);
  }

  /** Recording, told by the commands alone: a plan turn, or an implementation that had no plan. */
  lemma RecordsExactly(turns: seq<Turn>, k: nat, goal: string)
    requires k < |turns|
    ensures Records(turns, k, goal) <==>
              && Finishes(turns[k].ending)
              && ((turns[k].route.Workflow? && turns[k].route.mode == PlanMode)
                  || (turns[k].route.Implement? && !Kept(turns, k)))
              && Normalize(turns[k].route.input) == Normalize(goal)
  {
  }

  /** A plan is used once: between two implementations that keep their routes a plan is recorded. */
  lemma PlanIsUsedOnce(turns: seq<Turn>, m: nat, n: nat) returns (k: nat)
    requires m < n < |turns| && Kept(turns, m) && Kept(turns, n)
    ensures m < k < n && Records(turns, k, turns[n].route.input)
  {
    ImplementKeptExactly(turns, n);
    k := LatestTurn(turns, n);
  }

  /** An implementation that was turned into a plan goes through the next time, if that turn finished. */
  lemma ReroutedThenKept(turns: seq<Turn>, m: nat, n: nat)
    requires m < n < |turns| && turns[m].route.Implement? && turns[n].route.Implement?
    requires !Kept(turns, m) && Finishes(turns[m].ending)
    requires Normalize(turns[n].route.input) == Normalize(turns[m].route.input)
    requires forall j :: m < j < n ==> turns[j].route.Direct?
    ensures Kept(turns, n)
  {
    ImplementKeptExactly(turns, n);
    RecordsExactly(turns, m, turns[n].route.input);
  }

  /**
   Planning need not succeed: a plan turn that is stopped (after too many turns, say) still approves
   its goal, and the implementation that comes next goes through.
   */
  lemma StoppedPlanIsApproved(
      goal: string, resumed: bool, message: string, cbs: seq<EventStream.Callback>, why: string,
      reason: TurnLoop.StopReason, ending: Ending)
    requires !reason.PermissionDenied? && !reason.ProviderError? && !reason.ToolError?
    ensures var stopped := EventStream.Stream(resumed, message, cbs, EventStream.Stopped(why, ReasonText(reason)));
            Kept([Turn(Workflow(PlanMode, goal), Streamed(stopped)), Turn(Implement(goal), ending)], 1)
  {
    var stopped := EventStream.Stream(resumed, message, cbs, EventStream.Stopped(why, ReasonText(reason)));
    var turns := [Turn(Workflow(PlanMode, goal), Streamed(stopped)), Turn(Implement(goal), ending)];
    FinishesExactly(resumed, message, cbs, EventStream.Stopped(why, ReasonText(reason)), reason);
    ImplementKeptExactly(turns, 1);
    RecordsExactly(turns, 0, goal);
  }

  /** The event brings a stop reason. */
  predicate Brings(e: EventStream.Event, reason: string) {
    || (e.Failure? && e.stopReason == reason)
    || (e.StatusChanged? && e.status.DoneStatus? && e.status.stopReason == reason)
    || (e.StatusChanged? && e.status.ErrorStatus? && e.status.stopReason == reason)
  }

  /** The last event that brings a stop reason brings this one. */
  ghost predicate LastBrings(events: seq<EventStream.Event>, reason: string) {
    exists i :: 0 <= i < |events| && Brings(events[i], reason)
                && forall j, other :: i < j < |events| ==> !Brings(events[j], other)
  }

  lemma {:induction false} TerminalReasonIs(events: seq<EventStream.Event>, reason: string)
    ensures TerminalReason(events) == Some(reason) <==> LastBrings(events, reason)
    decreases |events|
  {
    if events != [] {
      var n := |events| - 1;
      var front, last := events[..n], events[n];
      TerminalReasonIs(front, reason);
      if Observe(Some("a"), last) == Observe(Some("b"), last) {
        assert Brings(last, Observe(None, last).value);
      } else {
        assert "a" != "b";
        forall other ensures !Brings(last, other) {
        }
        if LastBrings(front, reason) {
          var i :| 0 <= i < n && Brings(front[i], reason) && forall j, other :: i < j < n ==> !Brings(front[j], other);
          assert Brings(events[i], reason);
          forall j, other | i < j < |events| ensures !Brings(events[j], other) {
            assert j < n ==> events[j] == front[j];
          }
        }
        if LastBrings(events, reason) {
          var i :| 0 <= i < |events| && Brings(events[i], reason)
                   && forall j, other :: i < j < |events| ==> !Brings(events[j], other);
          assert i < n && Brings(front[i], reason);
          forall j, other | i < j < n ensures !Brings(front[j], other) {
            assert events[j] == front[j];
          }
        }
      }
    }
  }

  /** A plan turn approves its goal for the implementation that comes next exactly if it did not throw, and its
      stream, if it had one, did not bring a denied permission or a provider error last. */
  lemma PlanApprovesExactly(goal: string, ending: Ending, next: Ending)
    ensures Kept([Turn(Workflow(PlanMode, goal), ending), Turn(Implement(goal), next)], 1)
            <==> match ending
                 case Answered => true
                 case Threw => false
                 case Streamed(events) =>
                   !LastBrings(events, "permission_denied") && !LastBrings(events, "provider_error")
  {
    var turns := [Turn(Workflow(PlanMode, goal), ending), Turn(Implement(goal), next)];
    ImplementKeptExactly(turns, 1);
    RecordsExactly(turns, 0, goal);
    if ending.Streamed? {
      TerminalReasonIs(ending.events, "permission_denied");
      TerminalReasonIs(ending.events, "provider_error");
    }
    hide LastBrings, TerminalReason;
  }

  /** The number of implementations among the first `n` turns. */
  function Implementations(turns: seq<Turn>, n: nat): nat
    requires n <= |turns|
  {
    if n == 0 then 0
    else Implementations(turns, n - 1) + if turns[n - 1].route.Implement? then 1 else 0
  }

  /** Asking for one goal again and again: every second request keeps its route, direct commands aside. */
  lemma {:induction false} RepeatedImplementAlternates(turns: seq<Turn>, n: nat, goal: string)
    requires n < |turns| && turns[n].route.Implement?
    requires forall j :: 0 <= j <= n ==>
               turns[j].route.Direct?
               || (turns[j].route.Implement? && Finishes(turns[j].ending)
                   && Normalize(turns[j].route.input) == Normalize(goal))
    ensures Kept(turns, n) <==> Implementations(turns, n) % 2 == 1
  {
    var k := LatestTurn(turns, n);
    ImplementKeptExactly(turns, n);
    DirectDoNotCount(turns, n);
    if k >= 0 {
      RepeatedImplementAlternates(turns, k, goal);
      RecordsExactly(turns, k, turns[n].route.input);
    }
  }

  lemma {:induction false} DirectDoNotCount(turns: seq<Turn>, n: nat)
    requires n <= |turns|
    ensures var k := LatestTurn(turns, n);
            Implementations(turns, n)
            == if k < 0 then 0 else Implementations(turns, k) + if turns[k].route.Implement? then 1 else 0
  {
    if n > 0 {
      DirectDoNotCount(turns, n - 1);
    }
  }

  // ----- when two goals are the same -----

  function WordLength(s: string): (n: nat)
    ensures n <= |s| && (n < |s| ==> IsSpace(s[n])) && forall k :: 0 <= k < n ==> !IsSpace(s[k])
  {
    if s == "" || IsSpace(s[0]) then 0 else 1 + WordLength(s[1..])
  }

  /** The words of a text. */
  function Words(s: string): seq<string>
    decreases |s|
  {
    TrimStartShorter(s);
    var t := TrimStart(s);
    TrimmedStart(s);
    if t == "" then [] else [t[..WordLength(t)]] + Words(t[WordLength(t)..])
  }

  lemma TrimmedStart(s: string)
    ensures TrimStart(s) == "" || !IsSpace(TrimStart(s)[0])
    ensures TrimStart(s) != "" ==> WordLength(TrimStart(s)) > 0
  {
  }

  lemma {:induction false} CollapseWord(w: string, rest: string)
    requires forall k :: 0 <= k < |w| ==> !IsSpace(w[k])
    ensures CollapseRuns(w + rest) == w + CollapseRuns(rest)
  {
    if w == "" {
      assert w + rest == rest;
    } else {
      assert (w + rest)[1..] == w[1..] + rest;
      CollapseWord(w[1..], rest);
      assert [w[0]] + (w[1..] + CollapseRuns(rest)) == w + CollapseRuns(rest);
    }
  }

  predicate IsWord(w: string) {
    w != "" && forall k :: 0 <= k < |w| ==> !IsSpace(w[k])
  }

  lemma {:induction false} WordsAreWords(s: string)
    ensures forall k :: 0 <= k < |Words(s)| ==> IsWord(Words(s)[k])
    decreases |s|
  {
    var t := TrimStart(s);
    TrimStartShorter(s);
    TrimmedStart(s);
    if t != "" {
      WordsAreWords(t[WordLength(t)..]);
    }
  }

  lemma TrimStartTwice(s: string)
    ensures TrimStart(TrimStart(s)) == TrimStart(s)
  {
  }

  lemma {:induction false} CollapsedWords(t: string)
    requires t == "" || !IsSpace(t[0])
    ensures TrimEnd(CollapseRuns(t)) == Join(Words(t), " ")
    decreases |t|
  {
    if t != "" {
      var n := WordLength(t);
      var w, rest := t[..n], t[n..];
      assert TrimStart(t) == t && t == w + rest;
      CollapseWord(w, rest);
      if rest == "" {
        assert Words(rest) == [];
        WordStays(w, "");
      } else {
        var u := TrimStart(rest[1..]);
        TrimStartShorter(rest[1..]);
        TrimmedStart(rest[1..]);
        TrimStartTwice(rest[1..]);
        assert TrimStart(rest) == u && Words(rest) == Words(u);
        CollapsedWords(u);
        WordStays(w, " " + CollapseRuns(u));
        JoinStep(w, u);
      }
    }
  }

  lemma WordStays(w: string, x: string)
    requires IsWord(w)
    ensures TrimEnd(w + x) == w + TrimEnd(x)
  {
    if TrimEnd(x) != "" {
      TrimEndKeep(w, x);
    } else {
      var n := TrimEndIs(x);
      assert x[n..] == x;
      TrimEndBlank(w, x);
    }
  }

  lemma JoinStep(w: string, u: string)
    requires u == "" || !IsSpace(u[0])
    requires TrimEnd(CollapseRuns(u)) == Join(Words(u), " ")
    ensures w + TrimEnd(" " + CollapseRuns(u)) == Join([w] + Words(u), " ")
  {
    if u == "" {
      assert Words(u) == [] && " " + CollapseRuns(u) == " ";
      assert TrimEnd(" ") == "";
    } else {
      WordsAreWords(u);
      assert TrimStart(u) == u;
      TrimEndKeep(" ", CollapseRuns(u));
      assert ([w] + Words(u))[1..] == Words(u);
      Assoc(w, " ", Join(Words(u), " "));
    }
  }

  /** The normal form of a goal is its words with single spaces between them. */
  lemma NormalizeJoinsWords(s: string)
    ensures Normalize(s) == Join(Words(s), " ")
  {
    var t := TrimStart(s);
    TrimmedStart(s);
    TrimStartTwice(s);
    CollapsedWords(t);
    CollapseTrimmed(s);
    assert Words(s) == Words(t);
  }

  lemma CollapseTrimmed(s: string)
    ensures TrimStart(CollapseRuns(s)) == CollapseRuns(TrimStart(s))
  {
  }

  lemma {:induction false} WordsOfJoin(ws: seq<string>)
    requires forall k :: 0 <= k < |ws| ==> IsWord(ws[k])
    ensures Words(Join(ws, " ")) == ws
  {
    if ws != [] {
      var w := ws[0];
      if |ws| == 1 {
        FirstWord(w, "");
        assert w + "" == w && Words("") == [];
      } else {
        var rest := Join(ws[1..], " ");
        WordsOfJoin(ws[1..]);
        FirstWord(w, " " + rest);
        Assoc(w, " ", rest);
        assert (" " + rest)[1..] == rest;
        assert Words(" " + rest) == Words(rest);
      }
    }
  }

  lemma {:induction false} WordLengthIs(w: string, x: string)
    requires (forall k :: 0 <= k < |w| ==> !IsSpace(w[k])) && (x == "" || IsSpace(x[0]))
    ensures WordLength(w + x) == |w|
  {
    if w != "" {
      assert (w + x)[1..] == w[1..] + x;
      WordLengthIs(w[1..], x);
    } else {
      assert w + x == x;
    }
  }

  lemma FirstWord(w: string, x: string)
    requires IsWord(w) && (x == "" || IsSpace(x[0]))
    ensures Words(w + x) == [w] + Words(x)
  {
    var s := w + x;
    assert TrimStart(s) == s;
    WordLengthIs(w, x);
    assert s[..|w|] == w && s[|w|..] == x;
  }

  /** Two goals are the same exactly if they are the same words. */
  lemma SameGoalExactly(a: string, b: string)
    ensures Normalize(a) == Normalize(b) <==> Words(a) == Words(b)
  {
    NormalizeJoinsWords(a);
    NormalizeJoinsWords(b);
    WordsAreWords(a);
    WordsAreWords(b);
    WordsOfJoin(Words(a));
    WordsOfJoin(Words(b));
  }

  // ----- the session object -----

  class ChatSession {
    var workflowState: Option<Plan>
    ghost var turns: seq<Turn>           // what has been run

    ghost predicate Valid()
      reads this
    {
      workflowState == AfterTurns(turns)
    }

    constructor ()
      ensures Valid() && turns == []
    {
      workflowState, turns := None, [];
    }

    /** Before a turn: an implementation without a plan becomes planning, and a plan does not outlive the turn. */
    method ResolveEffectiveTurnInput(route: Route) returns (effective: Route)
      modifies `workflowState
      ensures effective == EffectiveRoute(old(workflowState), route)
      ensures workflowState == if route.Direct? then old(workflowState) else None
    {
      effective := route;
      if route.Implement? {
        var normalizedGoal := Normalize(route.input);
        var approvedPlan := workflowState.Some? && workflowState.value.normalizedGoal == normalizedGoal;
        if !approvedPlan {
          effective := Workflow(PlanMode, route.input);
        }
      }
      if InvalidatesWorkflow(effective) {
        workflowState := None;
      }
    }

    /** Once a turn has finished. */
    method RecordCompletedWorkflowState(effective: Route)
      modifies `workflowState
      ensures workflowState == if IsPlanning(effective) then Some(Plan(effective.input, Normalize(effective.input)))
                               else old(workflowState)
    {
      if !effective.Workflow? || effective.mode != PlanMode {
        return;
      }
      workflowState := Some(Plan(effective.input, Normalize(effective.input)));
    }

    /** Follow the stream of a turn: the last stop reason decides whether the turn counts as finished. */
    method ConsumeStream(effective: Route, events: seq<EventStream.Event>)
      modifies `workflowState
      ensures workflowState == if RecordsPlan(effective, Streamed(events))
                               then Some(Plan(effective.input, Normalize(effective.input)))
                               else old(workflowState)
    {
      var terminalStopReason: Option<string> := None;
      for i := 0 to |events|
        invariant terminalStopReason == TerminalReason(events[..i])
        invariant workflowState == old(workflowState)
      {
        assert events[..i + 1][..i] == events[..i];
        terminalStopReason := Observe(terminalStopReason, events[i]);
      }
      assert events[..|events|] == events;
      if terminalStopReason != Some("permission_denied") && terminalStopReason != Some("provider_error") {
        RecordCompletedWorkflowState(effective);
      }
    }

    /** One turn: an implementation goes ahead exactly on a plan for the same words that the turn before it recorded. */
    method RunTurn(turn: Turn) returns (effective: Route)
      requires Valid()
      modifies this
      ensures Valid() && turns == old(turns) + [turn]
      ensures effective == Taken(turns, |old(turns)|)
      ensures turn.route.Implement? ==>
                var k := LatestTurn(turns, |old(turns)|);
                effective == turn.route <==> k >= 0 && Records(turns, k, turn.route.input)
    {
      ghost var n := |turns|;
      turns := turns + [turn];
      assert turns[..n] == old(turns);
      effective := ResolveEffectiveTurnInput(turn.route);
      match turn.ending {
        case Streamed(events) => ConsumeStream(effective, events);
        case Answered => RecordCompletedWorkflowState(effective);
        case Threw =>
      }
      if turn.route.Implement? {
        ImplementKeptExactly(turns, n);
      }
    }
  }
}
