/**
 The verification gate that runs after a batch of tool calls
 (src/application/chat/verification-gate.ts).

 The gate scans the whole tool history; the specification is a small automaton that is
 stepped once per entry.
 */
module VerificationGate {
  import opened Options
  import opened Text

  datatype TaskMode = EngineeringEdit | DebugFix | OtherMode

  /** An executed tool call as the gate reads it. */
  datatype ToolSignal = ToolSignal(
    name: string, success: bool, command: string, outputPreview: string, error: string)

  /** A result of the batch: its own history entry (or what stands in for it) and its file changes. */
  datatype Execution = Execution(
    signal: ToolSignal, ok: bool, name: string, changedFiles: bool)

  /** Tool tables and patterns, taken as given. */
  datatype Classifiers = Classifiers(
    writeLike: string -> bool,
    triggersVerifier: string -> bool,
    diagnosticPass: string -> bool,
    verificationCommand: string -> bool,
    failureSignal: string -> bool)

  function ReadToolSignal(e: ToolSignal): string {
    var command := if e.command != "" then [e.command] else [];
    var output := if e.outputPreview != "" then [e.outputPreview] else [];
    var error := if e.error != "" then [e.error] else [];
    Join(command + output + error, "\n")
  }

  predicate IsWrite(c: Classifiers, e: ToolSignal) {
    e.success && c.writeLike(e.name)
  }

  predicate IsPassing(c: Classifiers, e: ToolSignal) {
    if e.name == "diagnostics" then e.success && c.diagnosticPass(ReadToolSignal(e))
    else
      && (e.name == "run_command" || e.name == "run_shell")
      && e.success
      && c.verificationCommand(ReadToolSignal(e))
      && !c.failureSignal(ReadToolSignal(e))
  }

  predicate IsReproduction(c: Classifiers, e: ToolSignal) {
    if e.name == "diagnostics" then e.success || Normalize(e.outputPreview) != "" || Normalize(e.error) != ""
    else
      && (e.name == "run_command" || e.name == "run_shell")
      && (!e.success || c.failureSignal(ReadToolSignal(e)))
  }

  // ----- scanning the history -----

  datatype Flags = Flags(hasWrite: bool, verifiedSince: bool, reproducedBefore: bool)

  predicate AnyEntry(history: seq<ToolSignal>, p: ToolSignal -> bool) {
    exists i :: 0 <= i < |history| && p(history[i])
  }

  /** The last position where `p` holds, or -1. */
  function LastIndex(history: seq<ToolSignal>, p: ToolSignal -> bool): (r: int)
    ensures -1 <= r < |history|
    ensures r >= 0 ==> p(history[r])
    ensures forall i :: r < i < |history| ==> !p(history[i])
  {
    if history == [] then -1
    else if p(history[|history| - 1]) then |history| - 1
    else LastIndex(history[..|history| - 1], p)
  }

  method FindLastIndex(history: seq<ToolSignal>, p: ToolSignal -> bool) returns (index: int)
    ensures index == LastIndex(history, p)
    ensures -1 <= index < |history|
    ensures index >= 0 ==> p(history[index])
    ensures forall i :: index < i < |history| ==> !p(history[i])
  {
    index := |history| - 1;
    while index >= 0
      invariant -1 <= index < |history|
      invariant forall i :: index < i < |history| ==> !p(history[i])
      decreases index
    {
      if p(history[index]) {
        return;
      }
      index := index - 1;
    }
  }

  function Scan(c: Classifiers, history: seq<ToolSignal>): Flags {
    var w := LastIndex(history, e => IsWrite(c, e));
    if w < 0 then Flags(false, false, false)
    else
      Flags(true,
            AnyEntry(history[w + 1..], e => IsPassing(c, e)),
            AnyEntry(history[..w], e => IsReproduction(c, e)))
  }

  // ----- the automaton -----

  /** The flags, and whether anything so far was a reproduction. */
  datatype Automaton = Automaton(flags: Flags, reproduced: bool)

  const START := Automaton(Flags(false, false, false), false)

  function Advance(c: Classifiers, a: Automaton, e: ToolSignal): Automaton {
    Automaton(
      if IsWrite(c, e) then Flags(true, false, a.reproduced)
      else a.flags.(verifiedSince := a.flags.verifiedSince || (a.flags.hasWrite && IsPassing(c, e))),
      a.reproduced || IsReproduction(c, e))
  }

  function RunAutomaton(c: Classifiers, a: Automaton, history: seq<ToolSignal>): Automaton
    decreases history
  {
    if history == [] then a else RunAutomaton(c, Advance(c, a, history[0]), history[1..])
  }

  lemma {:induction false} RunAppend(c: Classifiers, a: Automaton, history: seq<ToolSignal>, e: ToolSignal)
    ensures RunAutomaton(c, a, history + [e]) == Advance(c, RunAutomaton(c, a, history), e)
    decreases history
  {
    if history == [] {
      assert history + [e] == [e] && [e][1..] == [];
    } else {
      assert (history + [e])[1..] == history[1..] + [e];
      RunAppend(c, Advance(c, a, history[0]), history[1..], e);
    }
  }

  lemma AnyEntryAppend(history: seq<ToolSignal>, e: ToolSignal, p: ToolSignal -> bool)
    ensures AnyEntry(history + [e], p) <==> AnyEntry(history, p) || p(e)
  {
    var all := history + [e];
    if AnyEntry(history, p) {
      var i :| 0 <= i < |history| && p(history[i]);
      assert p(all[i]);
    }
    assert all[|history|] == e;
  }

  /** One more entry moves the scanned flags as the automaton moves. */
  lemma ScanAppend(c: Classifiers, history: seq<ToolSignal>, e: ToolSignal)
    ensures Scan(c, history + [e])
            == Advance(c, Automaton(Scan(c, history), AnyEntry(history, x => IsReproduction(c, x))), e).flags
  {
    var all := history + [e];
    var isWrite, passing, repro :=
      (x: ToolSignal) => IsWrite(c, x), (x: ToolSignal) => IsPassing(c, x), (x: ToolSignal) => IsReproduction(c, x);
    var w := LastIndex(history, isWrite);
    assert all[..|all| - 1] == history;
    if IsWrite(c, e) {
      assert LastIndex(all, isWrite) == |history|;
      assert all[|history| + 1..] == [];
    } else {
      assert LastIndex(all, isWrite) == w;
      if w >= 0 {
        assert all[w + 1..] == history[w + 1..] + [e];
        assert all[..w] == history[..w];
        AnyEntryAppend(history[w + 1..], e, passing);
      }
    }
  }

  /** Scanning and slicing the whole history agrees with the automaton, for every history. */
  lemma {:induction false} ScanIsAutomaton(c: Classifiers, history: seq<ToolSignal>)
    ensures RunAutomaton(c, START, history)
            == Automaton(Scan(c, history), AnyEntry(history, e => IsReproduction(c, e)))
    decreases |history|
  {
    if history != [] {
      var front, last := history[..|history| - 1], history[|history| - 1];
      assert history == front + [last];
      ScanIsAutomaton(c, front);
      RunAppend(c, START, front, last);
      ScanAppend(c, front, last);
      AnyEntryAppend(front, last, e => IsReproduction(c, e));
    }
  }

  // ----- the plan -----

  datatype Plan = Plan(
    taskMode: TaskMode,
    shouldEvaluate: bool,
    shouldInvokeRuntime: bool,
    batchHasVerificationEvidence: bool,
    flags: Flags)

  predicate Triggers(c: Classifiers, x: Execution) {
    x.changedFiles || (x.ok && c.triggersVerifier(x.name))
  }

  predicate AnyExecution(batch: seq<Execution>, p: Execution -> bool) {
    exists i :: 0 <= i < |batch| && p(batch[i])
  }

  predicate VerificationRequired(mode: TaskMode, runtime: bool, hasWrite: bool) {
    mode == EngineeringEdit || mode == DebugFix || runtime || hasWrite
  }

  function MakePlan(
      c: Classifiers, history: seq<ToolSignal>, batch: seq<Execution>, mode: TaskMode, runtime: bool): Plan
  {
    var flags := Scan(c, history);
    var trigger := AnyExecution(batch, (x: Execution) => Triggers(c, x));
    var evidence := flags.hasWrite && AnyExecution(batch, (x: Execution) => IsPassing(c, x.signal));
    var reproduction := flags.hasWrite && AnyExecution(batch, (x: Execution) => IsReproduction(c, x.signal));
    var required := VerificationRequired(mode, runtime, flags.hasWrite);
    var requests := trigger || evidence || (mode == DebugFix && reproduction);
    var pendingWrite := flags.hasWrite && !flags.verifiedSince;
    Plan(
      mode,
      required && (requests || (pendingWrite && batch == [])),
      required && runtime && trigger,
      evidence,
      flags)
  }

  // ----- the evaluation -----

  /** What the runtime's own verification left: its messages, and the blocker it reports, normalised. */
  datatype RuntimeRun = NotRun | Ran(messages: seq<string>, reported: string)

  function RuntimeBlocker(run: RuntimeRun): Option<string> {
    if run.NotRun? || Normalize(run.reported) == "" then None else Some(Normalize(run.reported))
  }

  const DO_NOT_FINISH := "Do not finish yet."
  const UNVERIFIED_WRITE := DO_NOT_FINISH
    + "\nThe latest file write still needs a successful verification pass."
    + "\nRun verification after the write, then continue only after it passes."
  const NOT_REPRODUCED := DO_NOT_FINISH
    + "\nTask mode is debug_fix, so the latest fix must follow reproduce -> fix -> verify."
    + "\nReproduce the failure before the next write, then apply the fix again, then verify it."
  const VERIFIED := "Verification passed via tool evidence."

  function RecoveryMessages(plan: Plan, run: RuntimeRun): seq<string> {
    var passed := run.Ran? && RuntimeBlocker(run).None?;
    var verified := !plan.flags.hasWrite || passed || plan.flags.verifiedSince;
    (if verified then [] else [UNVERIFIED_WRITE])
    + (if plan.taskMode == DebugFix && plan.flags.hasWrite && !plan.flags.reproducedBefore then [NOT_REPRODUCED]
       else [])
  }

  function Blockers(plan: Plan, run: RuntimeRun): seq<string> {
    (if RuntimeBlocker(run).Some? then [RuntimeBlocker(run).value] else []) + RecoveryMessages(plan, run)
  }

  function SyntheticMessages(plan: Plan, run: RuntimeRun): seq<string> {
    if Blockers(plan, run) != [] || run.Ran? || !plan.flags.hasWrite || !plan.batchHasVerificationEvidence then []
    else [VERIFIED]
  }

  /** The normalised forms of the messages that are not blank. */
  function Normalized(messages: seq<string>): seq<string> {
    if messages == [] then []
    else (if Normalize(messages[0]) == "" then [] else [Normalize(messages[0])]) + Normalized(messages[1..])
  }

  /** The recovery messages that say something not yet said. */
  function NewMessages(messages: seq<string>, seen: set<string>): seq<string> {
    if messages == [] then []
    else
      var n := Normalize(messages[0]);
      if n == "" || n in seen then NewMessages(messages[1..], seen)
      else [messages[0]] + NewMessages(messages[1..], seen + {n})
  }

  function Elements(s: seq<string>): set<string> {
    set x | x in s
  }

  /** What the recovery controller appends. */
  function Recovery(plan: Plan, run: RuntimeRun): seq<string> {
    var runtimeMessages := if run.Ran? then run.messages else [];
    var seen := Elements(Normalized(runtimeMessages + SyntheticMessages(plan, run)));
    var added := NewMessages(RecoveryMessages(plan, run), seen);
    var blocker := RuntimeBlocker(run);
    added +
    if runtimeMessages == [] && blocker.Some? && blocker.value !in seen + Elements(Normalized(added))
    then [blocker.value] else []
  }

  /** Everything an evaluated gate appends to the session. */
  function Appended(plan: Plan, run: RuntimeRun): seq<string> {
    (if run.Ran? then run.messages else []) + SyntheticMessages(plan, run) + Recovery(plan, run)
  }

  datatype Signal = Signal(ok: bool, blocked: bool, summary: string, messages: seq<string>)

  datatype GateResult = GateResult(
    invoked: bool, blocked: bool, completionBlocker: Option<string>, signal: Option<Signal>, appended: seq<string>)

  const NOOP := GateResult(false, false, None, None, [])

  function BuildSignal(blockers: seq<string>, appended: seq<string>): Option<Signal> {
    var messages := Normalized(appended);
    var blocked := blockers != [];
    if messages == [] && !blocked then None
    else
      var summary := if messages != [] then Join(messages, " | ") else Normalize(Join(blockers, "\n\n"));
      Some(Signal(!blocked, blocked, summary, if messages != [] then messages else [summary]))
  }

  /** The gate; `runtime` says what the runtime's verification would do, if there is a runtime. */
  function Gate(
      c: Classifiers, history: seq<ToolSignal>, batch: seq<Execution>, mode: TaskMode, runtime: Option<RuntimeRun>)
    : GateResult
  {
    var plan := MakePlan(c, history, batch, mode, runtime.Some?);
    if !plan.shouldEvaluate then NOOP
    else
      var run := if plan.shouldInvokeRuntime then runtime.value else NotRun;
      var blockers := Blockers(plan, run);
      GateResult(
        true, blockers != [],
        if blockers != [] then Some(Join(blockers, "\n\n")) else None,
        BuildSignal(blockers, Appended(plan, run)),
        Appended(plan, run))
  }

  // ----- what the gate decides -----

  /** An evaluated gate blocks exactly if the runtime blocks, or the last write is unverified and the
      runtime did not pass, or a debug fix wrote without an earlier reproduction. */
  lemma BlockedExactly(
      c: Classifiers, history: seq<ToolSignal>, batch: seq<Execution>, mode: TaskMode, runtime: Option<RuntimeRun>)
    requires runtime.Some? ==> runtime.value.Ran?
    ensures var g := Gate(c, history, batch, mode, runtime);
            var flags := RunAutomaton(c, START, history).flags;
            var runs := runtime.Some? && AnyExecution(batch, (x: Execution) => Triggers(c, x));
            var runtimeBlocks := runs && Normalize(runtime.value.reported) != "";
            var runtimePassed := runs && Normalize(runtime.value.reported) == "";
            && (g.invoked ==>
                  (g.blocked <==>
                     || runtimeBlocks
                     || (flags.hasWrite && !flags.verifiedSince && !runtimePassed)
                     || (mode == DebugFix && flags.hasWrite && !flags.reproducedBefore)))
            && (!g.invoked ==> !g.blocked)
  {
    ScanIsAutomaton(c, history);
  }

  /** A blocked gate hands a non-empty blocker to the turn, and an unblocked one none. */
  lemma BlockerExactlyWhenBlocked(
      c: Classifiers, history: seq<ToolSignal>, batch: seq<Execution>, mode: TaskMode, runtime: Option<RuntimeRun>)
    ensures var g := Gate(c, history, batch, mode, runtime);
            && (g.blocked <==> g.completionBlocker.Some?)
            && (g.blocked ==> g.completionBlocker.value != "")
            && (g.blocked ==> g.signal.Some?)
            && (g.signal.Some? ==> g.signal.value.blocked == g.blocked && g.signal.value.ok == !g.blocked)
  {
  }

  /** When the last write is unverified, a batch goes through without a blocker exactly if it asks for no
      evaluation at all, or the runtime ran and passed and no reproduction is owed. */
  lemma UnverifiedWriteLetGoExactly(
      c: Classifiers, history: seq<ToolSignal>, batch: seq<Execution>, mode: TaskMode, runtime: Option<RuntimeRun>)
    requires runtime.Some? ==> runtime.value.Ran?
    requires batch != [] && Scan(c, history).hasWrite && !Scan(c, history).verifiedSince
    ensures var asks := || AnyExecution(batch, (x: Execution) => Triggers(c, x))
                        || AnyExecution(batch, (x: Execution) => IsPassing(c, x.signal))
                        || (mode == DebugFix && AnyExecution(batch, (x: Execution) => IsReproduction(c, x.signal)));
            var passed := && runtime.Some? && Normalize(runtime.value.reported) == ""
                          && AnyExecution(batch, (x: Execution) => Triggers(c, x));
            Gate(c, history, batch, mode, runtime).completionBlocker.None?
            <==> !asks || (passed && (mode == DebugFix ==> Scan(c, history).reproducedBefore))
  {
  }

  // ----- nothing that blocks is kept from the model -----

  predicate Says(messages: seq<string>, n: string) {
    exists i :: 0 <= i < |messages| && Normalize(messages[i]) == n
  }

  lemma {:induction false} NormalizedSays(messages: seq<string>, n: string)
    requires n != ""
    ensures n in Normalized(messages) <==> Says(messages, n)
  {
    if messages != [] {
      NormalizedSays(messages[1..], n);
      if Says(messages, n) {
        var i :| 0 <= i < |messages| && Normalize(messages[i]) == n;
        if i > 0 {
          assert messages[1..][i - 1] == messages[i];
        }
      }
      if Says(messages[1..], n) {
        var i :| 0 <= i < |messages[1..]| && Normalize(messages[1..][i]) == n;
        assert messages[i + 1] == messages[1..][i];
      }
    }
  }

  lemma {:induction false} NewMessagesSay(messages: seq<string>, seen: set<string>, m: string)
    requires m in messages && Normalize(m) != ""
    ensures Normalize(m) in seen || Says(NewMessages(messages, seen), Normalize(m))
  {
    var n := Normalize(messages[0]);
    if m == messages[0] {
      if n !in seen {
        assert NewMessages(messages, seen)[0] == m;
      }
    } else {
      assert m in messages[1..];
      if n == "" || n in seen {
        NewMessagesSay(messages[1..], seen, m);
      } else {
        NewMessagesSay(messages[1..], seen + {n}, m);
        var rest := NewMessages(messages[1..], seen + {n});
        assert NewMessages(messages, seen) == [messages[0]] + rest;
        if Normalize(m) == n {
          assert NewMessages(messages, seen)[0] == messages[0];
        } else if Normalize(m) !in seen {
          SaysMore([messages[0]], rest, Normalize(m));
        }
      }
    }
  }

  lemma SaysMore(a: seq<string>, b: seq<string>, n: string)
    ensures Says(a + b, n) <==> Says(a, n) || Says(b, n)
  {
    if Says(a, n) {
      var i :| 0 <= i < |a| && Normalize(a[i]) == n;
      assert (a + b)[i] == a[i];
    }
    if Says(b, n) {
      var i :| 0 <= i < |b| && Normalize(b[i]) == n;
      assert (a + b)[|a| + i] == b[i];
    }
    if Says(a + b, n) {
      var i :| 0 <= i < |a + b| && Normalize((a + b)[i]) == n;
      assert i >= |a| ==> (a + b)[i] == b[i - |a|];
    }
  }

  lemma VisibleIsNotBlank(s: string)
    requires s != "" && !IsSpace(s[0])
    ensures Normalize(s) != ""
  {
    InkTrim(CollapseRuns(s));
  }

  lemma DemandIsNotBlank(plan: Plan, run: RuntimeRun, m: string)
    requires m in RecoveryMessages(plan, run)
    ensures Normalize(m) != ""
  {
    hide CollapseRuns, Trim;
    assert DO_NOT_FINISH[0] == 'D';
    VisibleIsNotBlank(UNVERIFIED_WRITE);
    VisibleIsNotBlank(NOT_REPRODUCED);
  }

  /** Each demand of an evaluated gate is said by a message it has appended. */
  lemma DemandsAreSaid(plan: Plan, run: RuntimeRun, m: string)
    requires m in RecoveryMessages(plan, run)
    ensures Says(Appended(plan, run), Normalize(m))
  {
    DemandIsNotBlank(plan, run, m);
    var n := Normalize(m);
    var runtimeMessages := if run.Ran? then run.messages else [];
    var before := runtimeMessages + SyntheticMessages(plan, run);
    var added := NewMessages(RecoveryMessages(plan, run), Elements(Normalized(before)));
    NewMessagesSay(RecoveryMessages(plan, run), Elements(Normalized(before)), m);
    NormalizedSays(before, n);
    var tail := Recovery(plan, run)[|added|..];
    assert Recovery(plan, run) == added + tail;
    SaysMore(added, tail, n);
    SaysMore(before, Recovery(plan, run), n);
  }

  // ----- the gate on a session -----

  class GateSession {
    var messages: seq<string>
    const toolHistory: seq<ToolSignal>
    var verifications: seq<Signal>

    constructor (messages: seq<string>, toolHistory: seq<ToolSignal>)
      ensures this.messages == messages && this.toolHistory == toolHistory && verifications == []
    {
      this.messages, this.toolHistory, this.verifications := messages, toolHistory, [];
    }

    /** Append what has not been said yet, and remember it. */
    method AppendNewMessages(recovery: seq<string>, seen0: set<string>) returns (seen: set<string>)
      modifies `messages
      ensures messages == old(messages) + NewMessages(recovery, seen0)
      ensures seen == seen0 + Elements(Normalized(NewMessages(recovery, seen0)))
    {
      seen := seen0;
      ghost var done: seq<string> := [];
      var i := 0;
      Begin(recovery, seen0);
      assert messages == old(messages) + done;
      while i < |recovery|
        invariant 0 <= i <= |recovery|
        invariant Said(recovery[i..], NewMessages(recovery, seen0), seen0, done, seen)
        invariant messages == old(messages) + done
      {
        var message := recovery[i];
        var normalized := Normalize(message);
        assert recovery[i..][0] == message && recovery[i..][1..] == recovery[i + 1..];
        SayNext(recovery[i..], NewMessages(recovery, seen0), seen0, done, seen);
        if normalized != "" && normalized !in seen {
          messages := messages + [message];
          seen := seen + {normalized};
          done := done + [message];
        }
        i := i + 1;
      }
      assert recovery[i..] == [] && done + [] == done;
    }

    method ApplyRecovery(plan: Plan, run: RuntimeRun)
      modifies `messages
      ensures messages == old(messages) + Recovery(plan, run)
    {
      var runtimeMessages := if run.Ran? then run.messages else [];
      var seen := Elements(Normalized(runtimeMessages + SyntheticMessages(plan, run)));
      seen := AppendNewMessages(RecoveryMessages(plan, run), seen);
      var blocker := RuntimeBlocker(run);
      if Blockers(plan, run) == [] || runtimeMessages != [] || blocker.None? || blocker.value in seen {
        return;
      }
      messages := messages + [blocker.value];
    }

    method RunVerificationGate(c: Classifiers, batch: seq<Execution>, mode: TaskMode, runtime: Option<RuntimeRun>)
      returns (result: GateResult)
      modifies this
      ensures result == Gate(c, toolHistory, batch, mode, runtime)
      ensures messages == old(messages) + result.appended
      ensures verifications == old(verifications) + if result.signal.Some? then [result.signal.value] else []
    {
      var plan := MakePlan(c, toolHistory, batch, mode, runtime.Some?);
      if !plan.shouldEvaluate {
        return NOOP;
      }
      ghost var before := messages;
      var run := NotRun;
      if plan.shouldInvokeRuntime {
        run := runtime.value;
      }
      var runtimeMessages := if run.Ran? then run.messages else [];
      var synthetic := SyntheticMessages(plan, run);
      messages := messages + runtimeMessages + synthetic;
      ApplyRecovery(plan, run);
      var blockers := Blockers(plan, run);
      var appended := Appended(plan, run);
      AppendedInOrder(before, runtimeMessages, synthetic, Recovery(plan, run));
      var signal := BuildSignal(blockers, appended);
      if signal.Some? {
        verifications := verifications + [signal.value];
      }
      result := GateResult(true, blockers != [],
        if blockers != [] then Some(Join(blockers, "\n\n")) else None, signal, appended);
    }
  }

  lemma AppendedInOrder(a: seq<string>, b: seq<string>, c: seq<string>, d: seq<string>)
    ensures a + b + c + d == a + (b + c + d)
  {
  }

  lemma {:induction false} NormalizedAppend(a: seq<string>, b: seq<string>)
    ensures Normalized(a + b) == Normalized(a) + Normalized(b)
  {
    if a == [] {
      assert a + b == b;
    } else {
      assert (a + b)[1..] == a[1..] + b;
      NormalizedAppend(a[1..], b);
    }
  }

  lemma AppendDone(done: seq<string>, message: string, rest: seq<string>)
    requires Normalize(message) != ""
    ensures done + ([message] + rest) == done + [message] + rest
    ensures Elements(Normalized(done + [message])) == Elements(Normalized(done)) + {Normalize(message)}
  {
    NormalizedAppend(done, [message]);
    assert [message][1..] == [];
  }

  /** `done` has been appended, `rest` is still to come, and `seen` is what has been said. */
  ghost predicate Said(rest: seq<string>, all: seq<string>, seen0: set<string>, done: seq<string>, seen: set<string>) {
    all == done + NewMessages(rest, seen) && seen == seen0 + Elements(Normalized(done))
  }

  lemma Begin(recovery: seq<string>, seen0: set<string>)
    ensures Said(recovery[0..], NewMessages(recovery, seen0), seen0, [], seen0)
  {
  }

  lemma SayNext(rest: seq<string>, all: seq<string>, seen0: set<string>, done: seq<string>, seen: set<string>)
    requires rest != [] && Said(rest, all, seen0, done, seen)
    ensures var n := Normalize(rest[0]);
            if n != "" && n !in seen then Said(rest[1..], all, seen0, done + [rest[0]], seen + {n})
            else Said(rest[1..], all, seen0, done, seen)
  {
    var n := Normalize(rest[0]);
    if n != "" && n !in seen {
      AppendDone(done, rest[0], NewMessages(rest[1..], seen + {n}));
    }
  }
}
