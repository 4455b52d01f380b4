/**
 Why a turn of the conversation loop stops (executeConversationTurn in
 src/application/chat/conversation-engine.ts): every stop reason, told by what the environment answers and
 by what has happened so far, and not by the loop's variables.
 */
module TurnStops {
  import opened Options
  import opened Text
  import opened Fingerprint
  import opened TurnLoop

  // ----- what one iteration is about -----

  predicate Speaks(s: Option<string>) {
    s.Some? && s.value != ""
  }

  predicate OutOfTime(cfg: Config, t: Turn) {
    match cfg.maxWallTimeMs
    case None => false
    case Some(limit) => 0 <= limit < t.now - cfg.startedAt
  }

  /** The provider was asked and has answered. */
  predicate Answered(cfg: Config, t: Turn) {
    !t.aborted && !OutOfTime(cfg, t) && t.forcedStop.None? && t.answer.Answer?
  }

  predicate HandsOverCalls(t: Turn) {
    t.answer.Answer? && t.answer.finishedWithToolCalls && t.answer.toolCalls.Some?
  }

  /** A text answer meets the blocker that the last follow-up reported, or else the runtime's. */
  function CompletionBlockerAfter(t: Turn, past: Trace): Option<string>
    requires t.answer.Answer?
  {
    if t.answer.finishedWithToolCalls then None
    else match LatestReport(past)
         case None => t.runtimeBlocker
         case Some(blocker) => Some(blocker)
  }

  /** What holds an answer without tool calls back. */
  function Holding(t: Turn, past: Trace): Option<string>
    requires t.answer.Answer?
  {
    if Speaks(CompletionBlockerAfter(t, past)) then CompletionBlockerAfter(t, past)
    else if Speaks(t.noToolBlocker) then t.noToolBlocker
    else None
  }

  /** The answer that was held back last, with no batch since, said the same to the same blocker. */
  predicate SaysItAgain(t: Turn, past: Trace) {
    && t.answer.Answer? && Holding(t, past).Some?
    && LastHeldSinceBatch(past) == Some(ContinuationFingerprint(Holding(t, past).value, t.answer.content))
  }

  /** The calls that the iteration wants to run: those of the answer, or the recovery call. */
  function Wanted(t: Turn, past: Trace): Option<seq<ToolCall>>
    requires t.answer.Answer?
  {
    if HandsOverCalls(t) then t.answer.toolCalls
    else if Speaks(CompletionBlockerAfter(t, past)) || !Speaks(t.noToolBlocker) || SaysItAgain(t, past) then None
    else match t.recoveryCall
         case None => None
         case Some(call) => Some([call])
  }

  predicate Repeats(cfg: Config, past: Trace, calls: seq<ToolCall>) {
    match LastAccepted(past)
    case None => false
    case Some(last) =>
      CreateToolCallBatchFingerprint(cfg.keyOrder, last) == CreateToolCallBatchFingerprint(cfg.keyOrder, calls)
  }

  predicate Fits(cfg: Config, past: Trace, calls: seq<ToolCall>) {
    match cfg.maxToolCalls
    case None => true
    case Some(limit) => AcceptedCalls(past) + |calls| <= limit
  }

  /** The calls are handed to the tools: they differ from the last batch and fit the budget. */
  predicate Accepts(cfg: Config, t: Turn, past: Trace) {
    && Answered(cfg, t) && Wanted(t, past).Some?
    && !Repeats(cfg, past, Wanted(t, past).value)
    && Fits(cfg, past, Wanted(t, past).value)
  }

  /** Why an iteration stops the run. */
  predicate Why(cfg: Config, t: Turn, past: Trace, reason: StopReason) {
    match reason
    case UserCancelled => t.aborted
    case MaxWallTime =>
      !t.aborted && (OutOfTime(cfg, t) || t.forcedStop == Some(ForcedMaxWallTime))
    case MaxTurns =>
      !t.aborted && !OutOfTime(cfg, t) && t.forcedStop == Some(ForcedMaxTurns)
    case ProviderError =>
      !t.aborted && !OutOfTime(cfg, t) && t.forcedStop.None? && t.answer.ProviderFails?
    case DuplicateToolCall =>
      Answered(cfg, t) && Wanted(t, past).Some? && Repeats(cfg, past, Wanted(t, past).value)
    case MaxToolCalls =>
      && Answered(cfg, t) && Wanted(t, past).Some?
      && !Repeats(cfg, past, Wanted(t, past).value) && !Fits(cfg, past, Wanted(t, past).value)
    case ToolError => Accepts(cfg, t, past) && t.followUp.FollowUpThrows?
    case PermissionDenied => Accepts(cfg, t, past) && t.followUp.FollowUp? && t.followUp.denied
    case VerificationFailed =>
      && Answered(cfg, t) && !t.answer.finishedWithToolCalls
      && Speaks(LatestReport(past)) && SaysItAgain(t, past)
    case NoProgress =>
      && Answered(cfg, t) && !HandsOverCalls(t) && SaysItAgain(t, past)
      && (t.answer.finishedWithToolCalls || !Speaks(LatestReport(past)))
    case Completed =>
      Answered(cfg, t) && !HandsOverCalls(t) && Holding(t, past).None?
  }

  // ----- one iteration -----

  lemma BatchStops(cfg: Config, t: Turn, s: State, calls: seq<ToolCall>, past: Trace)
    requires Linked(cfg, s)
    requires LastAccepted(s.trace) == LastAccepted(past) && AcceptedCalls(s.trace) == AcceptedCalls(past)
    ensures var o := TryBatch(cfg, t, s, calls);
            var runs := !Repeats(cfg, past, calls) && Fits(cfg, past, calls);
            && (o.Stop? && o.reason == DuplicateToolCall <==> Repeats(cfg, past, calls))
            && (o.Stop? && o.reason == MaxToolCalls <==> !Repeats(cfg, past, calls) && !Fits(cfg, past, calls))
            && (o.Stop? && o.reason == ToolError <==> runs && t.followUp.FollowUpThrows?)
            && (o.Stop? && o.reason == PermissionDenied <==> runs && t.followUp.FollowUp? && t.followUp.denied)
            && (o.Stop? ==> o.reason in {DuplicateToolCall, MaxToolCalls, ToolError, PermissionDenied})
            && o.state.trace
               == if !runs then s.trace
                  else if t.followUp.FollowUpThrows? then Snoc(s.trace, Accepted(calls))
                  else Snoc(Snoc(s.trace, Accepted(calls)), Reported(t.followUp.completionBlocker))
  {
    hide CreateToolCallBatchFingerprint;
  }

  /** What is logged once the provider has answered. */
  function LoggedAfterAnswer(cfg: Config, t: Turn, past: Trace): Trace
    requires Answered(cfg, t)
  {
    var asked := Snoc(past, Requested);
    var held := if !HandsOverCalls(t) && Holding(t, past).Some? && !SaysItAgain(t, past)
                then Snoc(asked, Held(ContinuationFingerprint(Holding(t, past).value, t.answer.content)))
                else asked;
    if !Accepts(cfg, t, past) then held
    else
      var accepted := Snoc(held, Accepted(Wanted(t, past).value));
      if t.followUp.FollowUpThrows? then accepted
      else Snoc(accepted, Reported(t.followUp.completionBlocker))
  }

  lemma AnswerStops(cfg: Config, t: Turn, s: State, past: Trace)
    requires Answered(cfg, t) && Linked(cfg, s) && s.trace == Snoc(past, Requested)
    ensures var o := TakeAnswer(cfg, t, s);
            && (forall reason :: o.Stop? && o.reason == reason <==> Why(cfg, t, past, reason))
            && o.state.trace == LoggedAfterAnswer(cfg, t, past)
  {
    hide TryBatch, CreateToolCallBatchFingerprint, ContinuationFingerprint, Kept;
    if HandsOverCalls(t) {
      BatchStops(cfg, t, s, t.answer.toolCalls.value, past);
    } else if Holding(t, past).Some? && !Speaks(CompletionBlockerAfter(t, past)) && t.recoveryCall.Some? {
      var held := Hold(s, t.noToolBlocker.value, t.answer.content, NoProgress);
      if held.Continue? {
        var h := HoldKeeps(cfg, s, t.noToolBlocker.value, t.answer.content, NoProgress);
        BatchStops(cfg, t, held.state, [t.recoveryCall.value], past);
      }
    }
  }

  /** An iteration stops the run with exactly the reasons that hold, and otherwise goes on. */
  lemma IterationStopsExactly(cfg: Config, t: Turn, s: State)
    requires Linked(cfg, s)
    ensures var o := Iterate(cfg, t, s);
            && (forall reason :: o.Stop? && o.reason == reason <==> Why(cfg, t, s.trace, reason))
            && o.state.trace == if Answered(cfg, t) then LoggedAfterAnswer(cfg, t, s.trace)
                                else if t.aborted || OutOfTime(cfg, t) || t.forcedStop.Some? then s.trace
                                else Snoc(s.trace, Requested)
  {
    hide TakeAnswer, LoggedAfterAnswer, CreateToolCallBatchFingerprint;
    if Answered(cfg, t) {
      var s' := RequestKeeps(cfg, s);
      AnswerStops(cfg, t, s', s.trace);
    }
  }

  /** The same answer to the same blocker, up to white space; the other one fixed, each is told apart. */
  lemma SameContinuation(blocker: string, other: string, content: string, again: string)
    ensures ContinuationFingerprint(blocker, content) == ContinuationFingerprint(blocker, again)
            <==> Normalize(content) == Normalize(again)
    ensures ContinuationFingerprint(blocker, content) == ContinuationFingerprint(other, content)
            <==> Normalize(blocker) == Normalize(other)
  {
    var b, c, d, e := Normalize(blocker), Normalize(other), Normalize(content), Normalize(again);
    hide Normalize;
    SameTail(b + "::", d, e);
    SameFront(b, c, "::" + d);
    Assoc(b, "::", d);
    Assoc(c, "::", d);
  }

  lemma SameTail(a: string, x: string, y: string)
    ensures a + x == a + y <==> x == y
  {
    if a + x == a + y {
      assert (a + x)[|a|..] == x && (a + y)[|a|..] == y;
    }
  }

  lemma SameFront(x: string, y: string, b: string)
    ensures x + b == y + b <==> x == y
  {
    if x + b == y + b {
      assert |x + b| == |y + b|;
      assert (x + b)[..|x|] == x && (y + b)[..|y|] == y;
    }
  }

  // ----- whole runs -----

  /** After `j` iterations the run is still on, and nothing is a reason to stop in the next one. */
  ghost predicate GoesOnAt(cfg: Config, env: Environment, s: State, j: nat) {
    var t, past := env(s.iteration + j), RunFor(cfg, env, s, j).state.trace;
    RunFor(cfg, env, s, j).Continue? && forall reason :: !Why(cfg, t, past, reason)
  }

  /** In the first `k` iterations nothing was a reason to stop. */
  lemma {:induction false} RunStopsExactly(cfg: Config, env: Environment, s: State) returns (k: nat, last: State)
    requires Linked(cfg, s)
    ensures RunFor(cfg, env, s, k) == Continue(last) && Linked(cfg, last) && last.iteration == s.iteration + k
    ensures forall j: nat :: j < k ==> GoesOnAt(cfg, env, s, j)
    ensures var o := Run(cfg, env, s);
            if last.iteration >= cfg.maxTurns then o == Stop(MaxTurns, last)
            else Why(cfg, env(last.iteration), last.trace, o.reason) && o == Iterate(cfg, env(last.iteration), last)
    decreases cfg.maxTurns - s.iteration
  {
    hide Iterate, Why, Linked;
    if s.iteration >= cfg.maxTurns {
      k, last := 0, s;
    } else {
      var t := env(s.iteration);
      IterationStopsExactly(cfg, t, s);
      IterationAdvances(cfg, t, s);
      var o := IterateKeeps(cfg, t, s);
      if o.Stop? {
        k, last := 0, s;
      } else {
        GoesOnLinked(cfg, o);
        k, last := RunStopsExactly(cfg, env, o.state);
        FirstOfRun(cfg, env, s, k, k + 1);
        forall j: nat | j < k + 1 ensures GoesOnAt(cfg, env, s, j) {
          if j > 0 {
            FirstOfRun(cfg, env, s, j - 1, j);
            assert GoesOnAt(cfg, env, o.state, j - 1);
          }
        }
        k := k + 1;
      }
    }
  }

  lemma GoesOnLinked(cfg: Config, o: Outcome)
    requires Sound(cfg, o) && o.Continue?
    ensures Linked(cfg, o.state)
  {
  }

  /** Every run: it goes on as long as there is no reason to stop and turns are left, and then stops with the reason. */
  lemma EveryRunStopsExactly(cfg: Config, env: Environment) returns (k: nat, past: Trace)
    ensures RunFor(cfg, env, INITIAL, k).Continue? && past == RunFor(cfg, env, INITIAL, k).state.trace
    ensures forall j: nat :: j < k ==> GoesOnAt(cfg, env, INITIAL, j)
    ensures forall reason :: Run(cfg, env, INITIAL).reason == reason
                             <==> if k >= cfg.maxTurns then reason == MaxTurns else Why(cfg, env(k), past, reason)
  {
    hide Iterate, Why, Linked;
    InitialIsLinked(cfg);
    var last;
    k, last := RunStopsExactly(cfg, env, INITIAL);
    past := last.trace;
    if k < cfg.maxTurns {
      IterationStopsExactly(cfg, env(k), last);
    }
  }

  lemma InitialIsLinked(cfg: Config)
    ensures Linked(cfg, INITIAL)
  {
  }

  // ----- what a finished run shows -----

  /** A batch was accepted in turn `k`, which begins with request number `k + 1`. */
  predicate AcceptedIn(t: Trace, k: nat) {
    match t
    case Empty => false
    case Snoc(p, e) => AcceptedIn(p, k) || (e.Accepted? && Requests(p) == k + 1)
  }

  /** So far every accepted batch had a follow-up without a denied permission, and the provider always answered. */
  ghost predicate Unharmed(env: Environment, t: Trace) {
    && (forall k: nat :: AcceptedIn(t, k) ==>
          k < Requests(t) && env(k).followUp.FollowUp? && !env(k).followUp.denied)
    && (forall k: nat :: k < Requests(t) ==> env(k).answer.Answer?)
  }

  /** The last thing that happened is that a batch was accepted, and its follow-up reported. */
  predicate EndsInReport(t: Trace) {
    t.Snoc? && t.event.Reported? && t.prefix.Snoc? && t.prefix.event.Accepted?
  }

  predicate EndsInBatch(t: Trace) {
    t.Snoc? && t.event.Accepted?
  }

  predicate EndsInRequest(t: Trace) {
    t.Snoc? && t.event.Requested?
  }

  /** How a run of which everything is known to the end went wrong, if it did. */
  ghost predicate HarmTold(env: Environment, o: Outcome) {
    var t := o.state.trace;
    && (o.Stop? && o.reason == PermissionDenied
        <==> exists k: nat :: AcceptedIn(t, k) && env(k).followUp.FollowUp? && env(k).followUp.denied)
    && (o.Stop? && o.reason == ToolError <==> exists k: nat :: AcceptedIn(t, k) && env(k).followUp.FollowUpThrows?)
    && (o.Stop? && o.reason == ProviderError <==> exists k: nat :: k < Requests(t) && env(k).answer.ProviderFails?)
    && (o.Stop? && o.reason == PermissionDenied ==> EndsInReport(t))
    && (o.Stop? && o.reason == ToolError ==> EndsInBatch(t))
    && (o.Stop? && o.reason == ProviderError ==> EndsInRequest(t))
  }

  /** What an iteration with an answer adds to what has happened. */
  lemma LoggedShape(cfg: Config, t: Turn, past: Trace, k: nat)
    requires Answered(cfg, t) && Requests(past) == k
    ensures var now := LoggedAfterAnswer(cfg, t, past);
            && Requests(now) == k + 1
            && (forall j: nat :: AcceptedIn(now, j) <==> AcceptedIn(past, j) || (j == k && Accepts(cfg, t, past)))
            && (Accepts(cfg, t, past) && t.followUp.FollowUpThrows? ==> EndsInBatch(now))
            && (Accepts(cfg, t, past) && t.followUp.FollowUp? ==> EndsInReport(now))
  {
    hide Repeats, Fits, SaysItAgain, Holding, ContinuationFingerprint;
    var asked := Snoc(past, Requested);
    var held := if !HandsOverCalls(t) && Holding(t, past).Some? && !SaysItAgain(t, past)
                then Snoc(asked, Held(ContinuationFingerprint(Holding(t, past).value, t.answer.content)))
                else asked;
    OneMore(past, Requested);
    OneMore(asked, held.event);
    if Accepts(cfg, t, past) {
      var accepted := Snoc(held, Accepted(Wanted(t, past).value));
      OneMore(held, accepted.event);
      if t.followUp.FollowUp? {
        OneMore(accepted, Reported(t.followUp.completionBlocker));
      }
    }
    hide Requests, AcceptedIn;
  }

  lemma OneMore(p: Trace, e: Event)
    ensures Requests(Snoc(p, e)) == Requests(p) + if e.Requested? then 1 else 0
    ensures forall j: nat :: AcceptedIn(Snoc(p, e), j) <==> AcceptedIn(p, j) || (e.Accepted? && Requests(p) == j + 1)
  {
  }

  lemma IterationHarm(cfg: Config, env: Environment, s: State)
    requires Linked(cfg, s) && Requests(s.trace) == s.iteration && Unharmed(env, s.trace)
    ensures var o := Iterate(cfg, env(s.iteration), s);
            HarmTold(env, o) && (o.Continue? ==> Unharmed(env, o.state.trace))
  {
    var t, k := env(s.iteration), s.iteration;
    IterationStopsExactly(cfg, t, s);
    var o := Iterate(cfg, t, s);
    hide Iterate, Linked, LoggedAfterAnswer, Accepts, Why;
    if Answered(cfg, t) {
      LoggedShape(cfg, t, s.trace, k);
      AnsweredHarm(cfg, env, s.trace, o, k);
    } else {
      UnansweredHarm(cfg, env, s.trace, o, k);
    }
  }

  /** What an answered turn `k` adds to the harm that a history shows. */
  lemma HarmSoFar(env: Environment, past: Trace, now: Trace, k: nat, accepts: bool)
    requires Requests(past) == k && Requests(now) == k + 1 && Unharmed(env, past)
    requires forall j: nat :: AcceptedIn(now, j) <==> AcceptedIn(past, j) || (j == k && accepts)
    ensures (exists j: nat :: AcceptedIn(now, j) && env(j).followUp.FollowUp? && env(j).followUp.denied)
            <==> accepts && env(k).followUp.FollowUp? && env(k).followUp.denied
    ensures (exists j: nat :: AcceptedIn(now, j) && env(j).followUp.FollowUpThrows?)
            <==> accepts && env(k).followUp.FollowUpThrows?
    ensures (exists j: nat :: j < Requests(now) && env(j).answer.ProviderFails?) <==> env(k).answer.ProviderFails?
    ensures env(k).answer.Answer? && (accepts ==> env(k).followUp.FollowUp? && !env(k).followUp.denied) ==>
              Unharmed(env, now)
  {
    hide Requests, AcceptedIn;
    assert AcceptedIn(now, k) <==> AcceptedIn(past, k) || accepts;
    assert !AcceptedIn(past, k);
  }

  lemma AnsweredHarm(cfg: Config, env: Environment, past: Trace, o: Outcome, k: nat)
    requires Answered(cfg, env(k)) && Requests(past) == k && Unharmed(env, past)
    requires var now, t := o.state.trace, env(k);
             && Requests(now) == k + 1
             && (forall j: nat :: AcceptedIn(now, j) <==> AcceptedIn(past, j) || (j == k && Accepts(cfg, t, past)))
             && (Accepts(cfg, t, past) && t.followUp.FollowUpThrows? ==> EndsInBatch(now))
             && (Accepts(cfg, t, past) && t.followUp.FollowUp? ==> EndsInReport(now))
    requires forall reason :: o.Stop? && o.reason == reason <==> Why(cfg, env(k), past, reason)
    ensures HarmTold(env, o) && (o.Continue? ==> Unharmed(env, o.state.trace))
  {
    var t := env(k);
    assert Why(cfg, t, past, PermissionDenied) <==> o.Stop? && o.reason == PermissionDenied;
    assert Why(cfg, t, past, ToolError) <==> o.Stop? && o.reason == ToolError;
    assert Why(cfg, t, past, ProviderError) <==> o.Stop? && o.reason == ProviderError;
    HarmSoFar(env, past, o.state.trace, k, Accepts(cfg, t, past));
    hide Accepts, Requests, AcceptedIn, EndsInBatch, EndsInReport, EndsInRequest, Unharmed;
  }

  lemma UnansweredHarm(cfg: Config, env: Environment, past: Trace, o: Outcome, k: nat)
    requires !Answered(cfg, env(k)) && Requests(past) == k && Unharmed(env, past)
    requires var t := env(k);
             o.state.trace == if t.aborted || OutOfTime(cfg, t) || t.forcedStop.Some? then past
                              else Snoc(past, Requested)
    requires forall reason :: o.Stop? && o.reason == reason <==> Why(cfg, env(k), past, reason)
    ensures HarmTold(env, o) && (o.Continue? ==> Unharmed(env, o.state.trace))
  {
    var t := env(k);
    assert Why(cfg, t, past, PermissionDenied) <==> o.Stop? && o.reason == PermissionDenied;
    assert Why(cfg, t, past, ToolError) <==> o.Stop? && o.reason == ToolError;
    assert Why(cfg, t, past, ProviderError) <==> o.Stop? && o.reason == ProviderError;
    OneMore(past, Requested);
  }

  lemma {:induction false} RunHarm(cfg: Config, env: Environment, s: State)
    requires Linked(cfg, s) && Requests(s.trace) == s.iteration && Unharmed(env, s.trace)
    ensures HarmTold(env, Run(cfg, env, s))
    decreases cfg.maxTurns - s.iteration
  {
    hide Iterate, Linked;
    if s.iteration < cfg.maxTurns {
      IterationHarm(cfg, env, s);
      IterateRequests(cfg, env(s.iteration), s);
      var o := IterateKeeps(cfg, env(s.iteration), s);
      if o.Continue? {
        GoesOnLinked(cfg, o);
        RunHarm(cfg, env, o.state);
      }
    }
  }

  /** Every run ends with a denied permission exactly if a batch it accepted, a recovery call included, had a
      denied follow-up, with a thrown tool error exactly if the tools of such a batch threw, and with a provider
      error exactly if the provider failed; and nothing is requested, accepted or held after that. */
  lemma HarmEndsTheRun(cfg: Config, env: Environment)
    ensures HarmTold(env, Run(cfg, env, INITIAL))
  {
    InitialIsLinked(cfg);
    RunHarm(cfg, env, INITIAL);
  }
}
