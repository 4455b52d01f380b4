/**
 The bounded loop of one conversation turn (executeConversationTurn in
 src/application/chat/conversation-engine.ts), run against an arbitrary environment: what the
 provider, the tools, the verification gate and the runtime answer in each iteration.
 */
module TurnLoop {
  import opened Options
  import opened Text
  import opened Fingerprint

  datatype StopReason =
    | Completed | UserCancelled | MaxTurns | MaxWallTime | MaxToolCalls
    | DuplicateToolCall | PermissionDenied | VerificationFailed | NoProgress
    | ProviderError | ToolError

  datatype Config = Config(
    maxTurns: int,
    maxToolCalls: Option<int>,
    maxWallTimeMs: Option<int>,
    startedAt: int,
    keyOrder: KeyOrder)

  datatype Answer =
    | ProviderFails
    | Answer(finishedWithToolCalls: bool, toolCalls: Option<seq<ToolCall>>, content: string)

  datatype FollowUp = FollowUpThrows | FollowUp(completionBlocker: Option<string>, denied: bool)

  datatype ForcedStop = ForcedMaxTurns | ForcedMaxWallTime

  /** What the environment answers in one iteration. */
  datatype Turn = Turn(
    aborted: bool,
    now: int,
    forcedStop: Option<ForcedStop>,
    answer: Answer,
    runtimeBlocker: Option<string>,
    noToolBlocker: Option<string>,
    recoveryCall: Option<ToolCall>,
    followUp: FollowUp)

  type Environment = nat -> Turn

  datatype Event =
    | Requested                                    // the provider was asked
    | Accepted(calls: seq<ToolCall>)               // a batch was counted and handed to the tools
    | Reported(blocker: Option<string>)            // its follow-up was evaluated
    | Held(fingerprint: string)                    // a text answer was held back by a blocker

  datatype Trace = Empty | Snoc(prefix: Trace, event: Event)

  datatype State = State(
    iteration: nat,
    toolCallCount: nat,
    lastBatch: Option<string>,
    lastHeld: Option<string>,
    activeBlocker: Option<string>,
    trace: Trace)

  const INITIAL := State(0, 0, None, None, None, Empty)

  datatype Outcome = Stop(reason: StopReason, state: State) | Continue(state: State)

  // ----- one iteration -----

  /** JavaScript's truth value of an optional string. */
  predicate Truthy(s: Option<string>) {
    s.Some? && s.value != ""
  }

  function ContinuationFingerprint(blocker: string, content: string): string {
    Normalize(blocker) + "::" + Normalize(content)
  }

  function Batch(cfg: Config, calls: seq<ToolCall>): string {
    CreateToolCallBatchFingerprint(cfg.keyOrder, calls)
  }

  predicate TooManyCalls(cfg: Config, count: int) {
    cfg.maxToolCalls.Some? && count > cfg.maxToolCalls.value
  }

  predicate WallTimeExceeded(cfg: Config, now: int) {
    cfg.maxWallTimeMs.Some? && cfg.maxWallTimeMs.value >= 0 && now - cfg.startedAt > cfg.maxWallTimeMs.value
  }

  function Log(s: State, e: Event): State {
    s.(trace := Snoc(s.trace, e))
  }

  /** Run the tools of a batch that fits the budgets, and take over the blocker of its follow-up. */
  function RunBatch(cfg: Config, t: Turn, s: State, calls: seq<ToolCall>): Outcome {
    var accepted := Log(s.(toolCallCount := s.toolCallCount + |calls|,
                           lastBatch := Some(Batch(cfg, calls)), lastHeld := None), Accepted(calls));
    match t.followUp
    case FollowUpThrows => Stop(ToolError, accepted)
    case FollowUp(blocker, denied) =>
      var s' := Log(accepted.(activeBlocker := blocker), Reported(blocker));
      if denied then Stop(PermissionDenied, s') else Continue(s')
  }

  function TryBatch(cfg: Config, t: Turn, s: State, calls: seq<ToolCall>): Outcome {
    if s.lastBatch == Some(Batch(cfg, calls)) then Stop(DuplicateToolCall, s)
    else if TooManyCalls(cfg, s.toolCallCount + |calls|) then Stop(MaxToolCalls, s)
    else RunBatch(cfg, t, s, calls)
  }

  /** Hold back a text answer; the same answer to the same blocker again is no progress. */
  function Hold(s: State, blocker: string, content: string, reason: StopReason): Outcome {
    var fingerprint := ContinuationFingerprint(blocker, content);
    if s.lastHeld == Some(fingerprint) then Stop(reason, s)
    else Continue(Log(s.(lastHeld := Some(fingerprint)), Held(fingerprint)))
  }

  function CompletionBlocker(t: Turn, s: State): Option<string>
    requires t.answer.Answer?
  {
    if t.answer.finishedWithToolCalls then None
    else if s.activeBlocker.Some? then s.activeBlocker
    else t.runtimeBlocker
  }

  function TakeAnswer(cfg: Config, t: Turn, s: State): Outcome
    requires t.answer.Answer?
  {
    var blocker := CompletionBlocker(t, s);
    if t.answer.finishedWithToolCalls && t.answer.toolCalls.Some? then
      TryBatch(cfg, t, s, t.answer.toolCalls.value)
    else if Truthy(blocker) then
      Hold(s, blocker.value, t.answer.content, if Truthy(s.activeBlocker) then VerificationFailed else NoProgress)
    else if Truthy(t.noToolBlocker) then
      var held := Hold(s, t.noToolBlocker.value, t.answer.content, NoProgress);
      if held.Stop? || t.recoveryCall.None? then held
      else TryBatch(cfg, t, held.state, [t.recoveryCall.value])
    else Stop(Completed, s)
  }

  function Iterate(cfg: Config, t: Turn, s: State): Outcome {
    if t.aborted then Stop(UserCancelled, s)
    else if WallTimeExceeded(cfg, t.now) then Stop(MaxWallTime, s)
    else
      var s' := s.(iteration := s.iteration + 1);
      if t.forcedStop.Some? then
        Stop(if t.forcedStop.value.ForcedMaxTurns? then MaxTurns else MaxWallTime, s')
      else if t.answer.ProviderFails? then Stop(ProviderError, Log(s', Requested))
      else TakeAnswer(cfg, t, Log(s', Requested))
  }

  lemma IterationAdvances(cfg: Config, t: Turn, s: State)
    ensures Iterate(cfg, t, s).Continue? ==> Iterate(cfg, t, s).state.iteration == s.iteration + 1
  {
  }

  function Run(cfg: Config, env: Environment, s: State): (r: Outcome)
    ensures r.Stop?
    decreases cfg.maxTurns - s.iteration
  {
    if s.iteration >= cfg.maxTurns then Stop(MaxTurns, s)
    else
      IterationAdvances(cfg, env(s.iteration), s);
      var next := Iterate(cfg, env(s.iteration), s);
      if next.Stop? then next else Run(cfg, env, next.state)
  }

  // ----- what a trace says -----

  function Requests(t: Trace): nat {
    match t
    case Empty => 0
    case Snoc(p, e) => Requests(p) + if e.Requested? then 1 else 0
  }

  /** The number of tool calls in accepted batches. */
  function AcceptedCalls(t: Trace): nat {
    match t
    case Empty => 0
    case Snoc(p, e) => AcceptedCalls(p) + if e.Accepted? then |e.calls| else 0
  }

  function LastAccepted(t: Trace): Option<seq<ToolCall>> {
    match t
    case Empty => None
    case Snoc(p, e) => if e.Accepted? then Some(e.calls) else LastAccepted(p)
  }

  /** The latest held answer since the last accepted batch. */
  function LastHeldSinceBatch(t: Trace): Option<string> {
    match t
    case Empty => None
    case Snoc(p, e) => if e.Held? then Some(e.fingerprint) else if e.Accepted? then None else LastHeldSinceBatch(p)
  }

  function LatestReport(t: Trace): Option<string> {
    match t
    case Empty => None
    case Snoc(p, e) => if e.Reported? then e.blocker else LatestReport(p)
  }

  /** No accepted batch has the fingerprint of the one accepted before it. */
  predicate NeighbouringBatchesDiffer(cfg: Config, t: Trace) {
    match t
    case Empty => true
    case Snoc(p, e) =>
      && NeighbouringBatchesDiffer(cfg, p)
      && (e.Accepted? && LastAccepted(p).Some? ==> Batch(cfg, e.calls) != Batch(cfg, LastAccepted(p).value))
  }

  /** No held answer repeats the one held before it, unless a batch was accepted in between. */
  predicate NeighbouringHoldsDiffer(t: Trace) {
    match t
    case Empty => true
    case Snoc(p, e) =>
      NeighbouringHoldsDiffer(p) && (e.Held? ==> LastHeldSinceBatch(p) != Some(e.fingerprint))
  }

  /** The trace keeps every budget. */
  ghost predicate Kept(cfg: Config, s: State) {
    && Requests(s.trace) <= s.iteration
    && s.toolCallCount == AcceptedCalls(s.trace)
    && !(TooManyCalls(cfg, s.toolCallCount) && s.toolCallCount > 0)
    && NeighbouringBatchesDiffer(cfg, s.trace)
    && NeighbouringHoldsDiffer(s.trace)
  }

  /** The variables of the loop say what the trace says. */
  ghost predicate Linked(cfg: Config, s: State) {
    && Kept(cfg, s)
    && s.lastBatch == (if LastAccepted(s.trace).Some? then Some(Batch(cfg, LastAccepted(s.trace).value)) else None)
    && s.lastHeld == LastHeldSinceBatch(s.trace)
    && s.activeBlocker == LatestReport(s.trace)
  }

  /** What an iteration that began linked leaves. */
  ghost predicate Sound(cfg: Config, o: Outcome) {
    Kept(cfg, o.state) && (o.Continue? ==> Linked(cfg, o.state))
  }

  lemma BatchKeeps(cfg: Config, t: Turn, s: State, calls: seq<ToolCall>) returns (o: Outcome)
    requires Linked(cfg, s)
    ensures o == TryBatch(cfg, t, s, calls) && Sound(cfg, o) && o.state.iteration == s.iteration
  {
    o := TryBatch(cfg, t, s, calls);
    if o.state != s {
      var accepted := Log(s.(toolCallCount := s.toolCallCount + |calls|,
                             lastBatch := Some(Batch(cfg, calls)), lastHeld := None), Accepted(calls));
      assert Linked(cfg, accepted);
    }
  }

  lemma HoldKeeps(cfg: Config, s: State, blocker: string, content: string, reason: StopReason) returns (o: Outcome)
    requires Linked(cfg, s)
    ensures o == Hold(s, blocker, content, reason)
    ensures Sound(cfg, o) && o.state.iteration == s.iteration
  {
    o := Hold(s, blocker, content, reason);
  }

  lemma AnswerKeeps(cfg: Config, t: Turn, s: State) returns (o: Outcome)
    requires t.answer.Answer? && Linked(cfg, s)
    ensures o == TakeAnswer(cfg, t, s) && Sound(cfg, o) && o.state.iteration == s.iteration
  {
    var blocker := CompletionBlocker(t, s);
    if t.answer.finishedWithToolCalls && t.answer.toolCalls.Some? {
      o := BatchKeeps(cfg, t, s, t.answer.toolCalls.value);
    } else if Truthy(blocker) {
      o := HoldKeeps(cfg, s, blocker.value, t.answer.content,
                     if Truthy(s.activeBlocker) then VerificationFailed else NoProgress);
    } else if Truthy(t.noToolBlocker) {
      o := HoldKeeps(cfg, s, t.noToolBlocker.value, t.answer.content, NoProgress);
      if o.Continue? && t.recoveryCall.Some? {
        o := BatchKeeps(cfg, t, o.state, [t.recoveryCall.value]);
      }
    } else {
      o := Stop(Completed, s);
    }
  }

  lemma RequestKeeps(cfg: Config, s: State) returns (s': State)
    requires Linked(cfg, s)
    ensures s' == Log(s.(iteration := s.iteration + 1), Requested) && Linked(cfg, s')
  {
    s' := Log(s.(iteration := s.iteration + 1), Requested);
  }

  lemma IterateKeeps(cfg: Config, t: Turn, s: State) returns (o: Outcome)
    requires Linked(cfg, s)
    ensures o == Iterate(cfg, t, s) && Sound(cfg, o)
    ensures o.state.iteration <= s.iteration + 1
  {
    if t.aborted {
      o := Stop(UserCancelled, s);
    } else if WallTimeExceeded(cfg, t.now) {
      o := Stop(MaxWallTime, s);
    } else if t.forcedStop.Some? {
      o := Stop(if t.forcedStop.value.ForcedMaxTurns? then MaxTurns else MaxWallTime, s.(iteration := s.iteration + 1));
    } else {
      var s' := RequestKeeps(cfg, s);
      if t.answer.ProviderFails? {
        o := Stop(ProviderError, s');
      } else {
        o := AnswerKeeps(cfg, t, s');
      }
    }
  }

  lemma {:induction false} RunKeeps(cfg: Config, env: Environment, s: State) returns (o: Outcome)
    requires Linked(cfg, s) && (s.iteration <= cfg.maxTurns || s.iteration == 0)
    ensures o == Run(cfg, env, s) && Kept(cfg, o.state)
    ensures o.state.iteration <= cfg.maxTurns || o.state.iteration == 0
    decreases cfg.maxTurns - s.iteration
  {
    if s.iteration >= cfg.maxTurns {
      o := Stop(MaxTurns, s);
    } else {
      o := IterateKeeps(cfg, env(s.iteration), s);
      if o.Continue? {
        IterationAdvances(cfg, env(s.iteration), s);
        o := RunKeeps(cfg, env, o.state);
      }
    }
  }

  /** Over every run: the budgets hold, and neighbouring batches and held answers differ. */
  lemma EveryRunKeepsItsBudgets(cfg: Config, env: Environment)
    ensures var s := Run(cfg, env, INITIAL).state;
            && (Requests(s.trace) <= cfg.maxTurns || Requests(s.trace) == 0)
            && s.toolCallCount == AcceptedCalls(s.trace)
            && (cfg.maxToolCalls.Some? ==> s.toolCallCount <= cfg.maxToolCalls.value || s.toolCallCount == 0)
            && NeighbouringBatchesDiffer(cfg, s.trace)
            && NeighbouringHoldsDiffer(s.trace)
  {
    var o := RunKeeps(cfg, env, INITIAL);
  }

  // ----- every request is made in time -----

  /** Nobody has cancelled, the wall time has not run out and the runtime has not forced a stop. */
  predicate InTime(cfg: Config, t: Turn) {
    !t.aborted && !WallTimeExceeded(cfg, t.now) && t.forcedStop.None?
  }

  lemma BatchRequests(cfg: Config, t: Turn, s: State, calls: seq<ToolCall>)
    ensures var o := TryBatch(cfg, t, s, calls);
            Requests(o.state.trace) == Requests(s.trace) && o.state.iteration == s.iteration
  {
  }

  lemma AnswerRequests(cfg: Config, t: Turn, s: State)
    requires t.answer.Answer?
    ensures var o := TakeAnswer(cfg, t, s);
            Requests(o.state.trace) == Requests(s.trace) && o.state.iteration == s.iteration
  {
    if t.answer.toolCalls.Some? {
      BatchRequests(cfg, t, s, t.answer.toolCalls.value);
    }
    if Truthy(t.noToolBlocker) && t.recoveryCall.Some? {
      BatchRequests(cfg, t, Hold(s, t.noToolBlocker.value, t.answer.content, NoProgress).state, [t.recoveryCall.value]);
    }
    hide TryBatch, ContinuationFingerprint;
  }

  lemma IterateRequests(cfg: Config, t: Turn, s: State)
    ensures var o := Iterate(cfg, t, s);
            && Requests(o.state.trace) == Requests(s.trace) + (if InTime(cfg, t) then 1 else 0)
            && (o.Continue? ==> InTime(cfg, t) && o.state.iteration == s.iteration + 1)
  {
    hide TakeAnswer;
    if t.answer.Answer? {
      AnswerRequests(cfg, t, Log(s.(iteration := s.iteration + 1), Requested));
    }
  }

  lemma {:induction false} RunRequests(cfg: Config, env: Environment, s: State)
    requires Requests(s.trace) == s.iteration && forall k: nat :: k < s.iteration ==> InTime(cfg, env(k))
    ensures forall k: nat :: k < Requests(Run(cfg, env, s).state.trace) ==> InTime(cfg, env(k))
    decreases cfg.maxTurns - s.iteration
  {
    if s.iteration < cfg.maxTurns {
      hide Iterate;
      IterateRequests(cfg, env(s.iteration), s);
      var next := Iterate(cfg, env(s.iteration), s);
      if next.Continue? {
        RunRequests(cfg, env, next.state);
      }
    }
  }

  /** Over every run: the provider is only asked in turns that are in time, one request a turn from the first on. */
  lemma EveryRequestIsInTime(cfg: Config, env: Environment)
    ensures var s := Run(cfg, env, INITIAL).state;
            forall k: nat :: k < Requests(s.trace) ==> InTime(cfg, env(k))
  {
    RunRequests(cfg, env, INITIAL);
  }

  // ----- neighbouring batches are different calls -----

  /** Neighbouring accepted batches, if readable, are not the same calls. */
  ghost predicate NeighbouringCallsDiffer(t: Trace) {
    match t
    case Empty => true
    case Snoc(p, e) =>
      && NeighbouringCallsDiffer(p)
      && (e.Accepted? && LastAccepted(p).Some?
          && ReadableBatch(e.calls) && ReadableBatch(LastAccepted(p).value) ==>
            !SameBatch(e.calls, LastAccepted(p).value))
  }

  lemma {:induction false} DifferentFingerprintsDifferentCalls(cfg: Config, t: Trace)
    requires TotalPreorder(cfg.keyOrder) && NoTies(cfg.keyOrder) && NeighbouringBatchesDiffer(cfg, t)
    ensures NeighbouringCallsDiffer(t)
  {
    match t {
      case Empty =>
      case Snoc(p, e) =>
        DifferentFingerprintsDifferentCalls(cfg, p);
        if e.Accepted? && LastAccepted(p).Some? && ReadableBatch(e.calls) && ReadableBatch(LastAccepted(p).value) {
          FingerprintDecidesBatch(cfg.keyOrder, e.calls, LastAccepted(p).value);
        }
    }
  }

  /** A run never hands the tools the same calls twice in a row, however their arguments are written. */
  lemma NoBatchIsRepeated(cfg: Config, env: Environment)
    requires TotalPreorder(cfg.keyOrder) && NoTies(cfg.keyOrder)
    ensures NeighbouringCallsDiffer(Run(cfg, env, INITIAL).state.trace)
  {
    EveryRunKeepsItsBudgets(cfg, env);
    DifferentFingerprintsDifferentCalls(cfg, Run(cfg, env, INITIAL).state.trace);
  }

  // ----- the verification blocker -----

  /** The environment of a completing turn: the turn that ended the run. */
  ghost function LastTurn(cfg: Config, env: Environment, s: State): Option<Turn>
    decreases cfg.maxTurns - s.iteration
  {
    if s.iteration >= cfg.maxTurns then None
    else
      var next := Iterate(cfg, env(s.iteration), s);
      if next.Stop? then Some(env(s.iteration)) else LastTurn(cfg, env, next.state)
  }

  /** `t` completes after `trace`. */
  predicate Completes(t: Turn, trace: Trace) {
    && t.answer.Answer?
    && !(t.answer.finishedWithToolCalls && t.answer.toolCalls.Some?)
    && !Truthy(t.noToolBlocker)
    && (t.answer.finishedWithToolCalls
        || (LatestReport(trace).None? && !Truthy(t.runtimeBlocker))
        || LatestReport(trace) == Some(""))
  }

  lemma AnswerCompletes(cfg: Config, t: Turn, s: State)
    requires t.answer.Answer? && Linked(cfg, s)
    ensures TakeAnswer(cfg, t, s) == Stop(Completed, s) <==> Completes(t, s.trace)
    ensures TakeAnswer(cfg, t, s).Stop? && TakeAnswer(cfg, t, s).reason == Completed
            ==> TakeAnswer(cfg, t, s) == Stop(Completed, s)
  {
  }

  lemma {:induction false} CompletedRun(cfg: Config, env: Environment, s: State) returns (o: Outcome)
    requires Linked(cfg, s)
    ensures o == Run(cfg, env, s)
    ensures o.reason == Completed ==>
              LastTurn(cfg, env, s).Some? && Completes(LastTurn(cfg, env, s).value, o.state.trace)
    decreases cfg.maxTurns - s.iteration
  {
    if s.iteration >= cfg.maxTurns {
      o := Stop(MaxTurns, s);
    } else {
      var t := env(s.iteration);
      o := IterateKeeps(cfg, t, s);
      IterationAdvances(cfg, t, s);
      if o.Continue? {
        o := CompletedRun(cfg, env, o.state);
      } else if o.reason == Completed {
        var s' := RequestKeeps(cfg, s);
        AnswerCompletes(cfg, t, s');
      }
    }
  }

  /** Finish reason 'tool_calls' always comes with tool calls, and a reported blocker is never empty. */
  ghost predicate Honest(env: Environment) {
    forall i: nat ::
      && (env(i).answer.Answer? && env(i).answer.finishedWithToolCalls ==> env(i).answer.toolCalls.Some?)
      && (env(i).followUp.FollowUp? ==> env(i).followUp.completionBlocker != Some(""))
  }

  predicate NoEmptyReport(t: Trace) {
    LatestReport(t) != Some("")
  }

  lemma BatchReports(cfg: Config, t: Turn, s: State, calls: seq<ToolCall>)
    requires NoEmptyReport(s.trace)
    requires t.followUp.FollowUp? ==> t.followUp.completionBlocker != Some("")
    ensures NoEmptyReport(TryBatch(cfg, t, s, calls).state.trace)
  {
  }

  lemma AnswerReports(cfg: Config, t: Turn, s: State)
    requires NoEmptyReport(s.trace) && t.answer.Answer?
    requires t.followUp.FollowUp? ==> t.followUp.completionBlocker != Some("")
    ensures NoEmptyReport(TakeAnswer(cfg, t, s).state.trace)
  {
    hide TryBatch;
    if t.answer.toolCalls.Some? {
      BatchReports(cfg, t, s, t.answer.toolCalls.value);
    }
    if Truthy(t.noToolBlocker) && t.recoveryCall.Some? {
      var held := Hold(s, t.noToolBlocker.value, t.answer.content, NoProgress);
      BatchReports(cfg, t, held.state, [t.recoveryCall.value]);
    }
  }

  lemma IterateReports(cfg: Config, t: Turn, s: State)
    requires NoEmptyReport(s.trace)
    requires t.followUp.FollowUp? ==> t.followUp.completionBlocker != Some("")
    ensures NoEmptyReport(Iterate(cfg, t, s).state.trace)
  {
    hide TakeAnswer;
    if t.answer.Answer? {
      AnswerReports(cfg, t, Log(s.(iteration := s.iteration + 1), Requested));
    }
  }

  lemma {:induction false} HonestRun(cfg: Config, env: Environment, s: State)
    requires Honest(env) && NoEmptyReport(s.trace)
    ensures NoEmptyReport(Run(cfg, env, s).state.trace)
    ensures LastTurn(cfg, env, s).Some? ==>
              var t := LastTurn(cfg, env, s).value;
              t.answer.Answer? && t.answer.finishedWithToolCalls ==> t.answer.toolCalls.Some?
    decreases cfg.maxTurns - s.iteration
  {
    if s.iteration < cfg.maxTurns {
      IterateReports(cfg, env(s.iteration), s);
      var next := Iterate(cfg, env(s.iteration), s);
      if next.Continue? {
        HonestRun(cfg, env, next.state);
      }
    }
  }

  /** A run completes only if the latest follow-up reported no blocker and the runtime has none. */
  lemma CompletedOnlyUnblocked(cfg: Config, env: Environment)
    requires Honest(env) && Run(cfg, env, INITIAL).reason == Completed
    ensures LatestReport(Run(cfg, env, INITIAL).state.trace) == None
    ensures LastTurn(cfg, env, INITIAL).Some?
    ensures !Truthy(LastTurn(cfg, env, INITIAL).value.runtimeBlocker)
    ensures !Truthy(LastTurn(cfg, env, INITIAL).value.noToolBlocker)
  {
    var o := CompletedRun(cfg, env, INITIAL);
    HonestRun(cfg, env, INITIAL);
  }

  /** The provider fails or answers with text. */
  predicate NoToolCalls(t: Turn) {
    t.answer.Answer? ==> !t.answer.finishedWithToolCalls
  }

  /** While a blocker is in force, a text turn is held or ends the run, and the blocker stays. */
  lemma HeldOnce(cfg: Config, t: Turn, s: State)
    requires Truthy(s.activeBlocker) && NoToolCalls(t)
    ensures var o := Iterate(cfg, t, s);
            && LatestReport(o.state.trace) == LatestReport(s.trace)
            && (o.Continue? ==>
                  o.state.activeBlocker == s.activeBlocker && o.state.trace.Snoc? && o.state.trace.event.Held?)
            && (o.Stop? ==> o.reason != Completed)
  {
  }

  /** The first `n` iterations of a run, or less if it stops. */
  function RunFor(cfg: Config, env: Environment, s: State, n: nat): Outcome
    decreases n
  {
    if n == 0 then Continue(s)
    else if s.iteration >= cfg.maxTurns then Stop(MaxTurns, s)
    else
      var next := Iterate(cfg, env(s.iteration), s);
      if next.Stop? then next else RunFor(cfg, env, next.state, n - 1)
  }

  lemma {:induction false} RunForIsRun(cfg: Config, env: Environment, s: State, n: nat)
    ensures var o := RunFor(cfg, env, s, n);
            Run(cfg, env, s) == if o.Stop? then o else Run(cfg, env, o.state)
    decreases n
  {
    if n > 0 && s.iteration < cfg.maxTurns {
      hide Iterate;
      IterationAdvances(cfg, env(s.iteration), s);
      var next := Iterate(cfg, env(s.iteration), s);
      if next.Continue? {
        RunForIsRun(cfg, env, next.state, n - 1);
      }
    }
  }

  /** `o` is what becomes of `s` while its blocker is in force: the blocker stays, and the run does not complete. */
  ghost predicate HeldBack(s: State, o: Outcome) {
    && LatestReport(o.state.trace) == LatestReport(s.trace)
    && (o.Continue? ==> o.state.activeBlocker == s.activeBlocker)
    && (o.Stop? ==> o.reason != Completed)
  }

  lemma {:induction false} HeldFor(cfg: Config, env: Environment, s: State, n: nat)
    requires Truthy(s.activeBlocker)
    requires forall i: nat :: s.iteration <= i < s.iteration + n ==> NoToolCalls(env(i))
    ensures HeldBack(s, RunFor(cfg, env, s, n))
    decreases n
  {
    if n > 0 && s.iteration < cfg.maxTurns {
      IterationAdvances(cfg, env(s.iteration), s);
      HeldOnce(cfg, env(s.iteration), s);
      hide Iterate;
      var next := Iterate(cfg, env(s.iteration), s);
      if next.Continue? {
        HeldFor(cfg, env, next.state, n - 1);
      }
    }
  }

  lemma {:induction false} RunForAdds(cfg: Config, env: Environment, s: State, m: nat, n: nat)
    requires RunFor(cfg, env, s, m).Continue?
    ensures RunFor(cfg, env, s, m + n) == RunFor(cfg, env, RunFor(cfg, env, s, m).state, n)
    decreases m
  {
    hide Iterate;
    if m > 0 {
      hide *;
      var next := Iterate(cfg, env(s.iteration), s);
      GoesOn(cfg, env, s, m);
      FirstOfRun(cfg, env, s, m - 1, m);
      FirstOfRun(cfg, env, s, m - 1 + n, m + n);
      RunForAdds(cfg, env, next.state, m - 1, n);
    }
  }

  lemma GoesOn(cfg: Config, env: Environment, s: State, n: nat)
    requires n > 0 && RunFor(cfg, env, s, n).Continue?
    ensures s.iteration < cfg.maxTurns && Iterate(cfg, env(s.iteration), s).Continue?
  {
    hide Iterate;
  }

  lemma FirstOfRun(cfg: Config, env: Environment, s: State, k: nat, n: nat)
    requires n == k + 1 && s.iteration < cfg.maxTurns && Iterate(cfg, env(s.iteration), s).Continue?
    ensures RunFor(cfg, env, s, n) == RunFor(cfg, env, Iterate(cfg, env(s.iteration), s).state, k)
  {
    hide Iterate;
  }

  /**
   Over every run: a blocker that is in force after some iterations stays in force through every
   stretch of turns that call no tools, however long, and such a stretch does not complete the run.
   */
  lemma BlockerStaysInForce(cfg: Config, env: Environment, m: nat, n: nat)
    requires RunFor(cfg, env, INITIAL, m).Continue?
    requires var s := RunFor(cfg, env, INITIAL, m).state;
             && Truthy(s.activeBlocker)
             && forall i: nat :: s.iteration <= i < s.iteration + n ==> NoToolCalls(env(i))
    ensures HeldBack(RunFor(cfg, env, INITIAL, m).state, RunFor(cfg, env, INITIAL, m + n))
  {
    hide *;
    RunForAdds(cfg, env, INITIAL, m, n);
    HeldFor(cfg, env, RunFor(cfg, env, INITIAL, m).state, n);
  }

  /** If no tool is called any more, the run does not complete at all. */
  lemma BlockedRunDoesNotComplete(cfg: Config, env: Environment, m: nat)
    requires RunFor(cfg, env, INITIAL, m).Continue?
    requires var s := RunFor(cfg, env, INITIAL, m).state;
             Truthy(s.activeBlocker) && forall i: nat :: s.iteration <= i ==> NoToolCalls(env(i))
    ensures Run(cfg, env, INITIAL).reason != Completed
  {
    var s := RunFor(cfg, env, INITIAL, m).state;
    var n: nat := if s.iteration < cfg.maxTurns then cfg.maxTurns - s.iteration else 0;
    hide Iterate, RunFor, LatestReport;
    RunForIsRun(cfg, env, INITIAL, m);
    RunForIsRun(cfg, env, s, n);
    HeldFor(cfg, env, s, n);
    RunForEnds(cfg, env, s, n);
  }

  lemma {:induction false} RunForEnds(cfg: Config, env: Environment, s: State, n: nat)
    requires s.iteration + n >= cfg.maxTurns
    ensures var o := RunFor(cfg, env, s, n);
            o.Continue? ==> o.state.iteration >= cfg.maxTurns
    decreases n
  {
    if n > 0 && s.iteration < cfg.maxTurns {
      hide Iterate;
      IterationAdvances(cfg, env(s.iteration), s);
      var next := Iterate(cfg, env(s.iteration), s);
      if next.Continue? {
        RunForEnds(cfg, env, next.state, n - 1);
      }
    }
  }

  /** The assumption is needed: a 'tool_calls' answer without tool calls completes past the verification
      blocker and the runtime's completion blocker; only the blocker for answers without tools holds it back. */
  lemma MissingToolCallsComplete(cfg: Config, t: Turn, s: State)
    requires Linked(cfg, s) && !t.aborted && !WallTimeExceeded(cfg, t.now) && t.forcedStop.None?
    requires t.answer.Answer? && t.answer.finishedWithToolCalls
    ensures var o := Iterate(cfg, t, s);
            (o.Stop? && o.reason == Completed) <==> t.answer.toolCalls.None? && !Truthy(t.noToolBlocker)
  {
  }

  // ----- the loop -----

  /** Hand a batch to the tools, unless it repeats the last one or exceeds the budget. */
  method HandToTools(cfg: Config, t: Turn, s0: State, calls: seq<ToolCall>) returns (o: Outcome)
    ensures o == TryBatch(cfg, t, s0, calls)
  {
    var s := s0;
    var fingerprint := Batch(cfg, calls);
    if s.lastBatch == Some(fingerprint) {
      return Stop(DuplicateToolCall, s);
    }
    var nextToolCallCount := s.toolCallCount + |calls|;
    if TooManyCalls(cfg, nextToolCallCount) {
      return Stop(MaxToolCalls, s);
    }
    s := s.(lastBatch := Some(fingerprint), lastHeld := None, toolCallCount := nextToolCallCount);
    s := Log(s, Accepted(calls));
    if t.followUp.FollowUpThrows? {
      return Stop(ToolError, s);
    }
    s := Log(s.(activeBlocker := t.followUp.completionBlocker), Reported(t.followUp.completionBlocker));
    if t.followUp.denied {
      return Stop(PermissionDenied, s);
    }
    return Continue(s);
  }

  /** What happens once the provider has answered. */
  method HandleAnswer(cfg: Config, t: Turn, s0: State) returns (o: Outcome)
    requires t.answer.Answer?
    ensures o == TakeAnswer(cfg, t, s0)
  {
    var s := s0;
    var completionBlocker := CompletionBlocker(t, s);
    if t.answer.finishedWithToolCalls && t.answer.toolCalls.Some? {
      o := HandToTools(cfg, t, s, t.answer.toolCalls.value);
      return;
    }
    if Truthy(completionBlocker) {
      o := Hold(s, completionBlocker.value, t.answer.content,
                if Truthy(s.activeBlocker) then VerificationFailed else NoProgress);
      return;
    }
    if Truthy(t.noToolBlocker) {
      o := Hold(s, t.noToolBlocker.value, t.answer.content, NoProgress);
      if o.Continue? && t.recoveryCall.Some? {
        o := HandToTools(cfg, t, o.state, [t.recoveryCall.value]);
      }
      return;
    }
    return Stop(Completed, s);
  }

  method RunIteration(cfg: Config, t: Turn, s0: State) returns (o: Outcome)
    ensures o == Iterate(cfg, t, s0)
  {
    var s := s0;
    if t.aborted {
      return Stop(UserCancelled, s);
    }
    if WallTimeExceeded(cfg, t.now) {
      return Stop(MaxWallTime, s);
    }
    s := s.(iteration := s.iteration + 1);
    if t.forcedStop.Some? {
      return Stop(if t.forcedStop.value.ForcedMaxTurns? then MaxTurns else MaxWallTime, s);
    }
    s := Log(s, Requested);
    if t.answer.ProviderFails? {
      return Stop(ProviderError, s);
    }
    o := HandleAnswer(cfg, t, s);
  }

  method ExecuteConversationTurn(cfg: Config, env: Environment) returns (o: Outcome)
    ensures o == Run(cfg, env, INITIAL)
  {
    var s := INITIAL;
    while s.iteration < cfg.maxTurns
      invariant Run(cfg, env, INITIAL) == Run(cfg, env, s)
      decreases cfg.maxTurns - s.iteration
    {
      IterationAdvances(cfg, env(s.iteration), s);
      o := RunIteration(cfg, env(s.iteration), s);
      if o.Stop? {
        return;
      }
      s := o.state;
    }
    return Stop(MaxTurns, s);
  }
}
