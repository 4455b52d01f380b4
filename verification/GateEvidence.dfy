/**
 What counts for the verification gate (src/application/chat/verification-gate.ts), told entry by entry from
 the names, the outcomes and the texts of executed tools, and what the gate makes of it.
 */
module GateEvidence {
  import opened Options
  import opened Text
  import opened VerificationGate

  // ----- one entry -----

  function Glue(a: string, b: string): string {
    if a == "" then b else if b == "" then a else a + "\n" + b
  }

  /** The command, the output and the error, those that are there, each on lines of its own. */
  function SignalText(e: ToolSignal): string {
    Glue(Glue(e.command, e.outputPreview), e.error)
  }

  predicate RunsCommand(e: ToolSignal) {
    e.name == "run_command" || e.name == "run_shell"
  }

  predicate RunsDiagnostics(e: ToolSignal) {
    e.name == "diagnostics"
  }

  /** The entry does not verify anything: one reason is enough. */
  predicate NoPass(c: Classifiers, e: ToolSignal) {
    || !e.success
    || (!RunsCommand(e) && !RunsDiagnostics(e))
    || (RunsCommand(e) && c.failureSignal(SignalText(e)))
    || (RunsCommand(e) && !c.verificationCommand(SignalText(e)))
    || (RunsDiagnostics(e) && !c.diagnosticPass(SignalText(e)))
  }

  /** The entry does not show the failure that is to be fixed. */
  predicate NoFailureShown(c: Classifiers, e: ToolSignal) {
    || (!RunsCommand(e) && !RunsDiagnostics(e))
    || (RunsCommand(e) && e.success && !c.failureSignal(SignalText(e)))
    || (RunsDiagnostics(e) && !e.success && IsBlank(e.outputPreview) && IsBlank(e.error))
  }

  lemma JoinUpToThree(a: string, b: string, d: string)
    ensures Join([], "\n") == "" && Join([a], "\n") == a && Join([a, b], "\n") == a + "\n" + b
    ensures Join([a, b, d], "\n") == a + "\n" + b + "\n" + d
  {
    assert [a, b][1..] == [b] && [a, b, d][1..] == [b, d] && [b, d][1..] == [d];
    assert Join([b, d], "\n") == b + "\n" + d;
    assert a + "\n" + (b + "\n" + d) == a + "\n" + b + "\n" + d;
  }

  lemma SignalTextIs(e: ToolSignal)
    ensures ReadToolSignal(e) == SignalText(e)
  {
    var a, b, d := e.command, e.outputPreview, e.error;
    var first := if a != "" then [a] else [];
    var second := if b != "" then [b] else [];
    var third := if d != "" then [d] else [];
    var parts := first + second + third;
    JoinUpToThree(a, b, d);
    JoinUpToThree(b, d, a);
    JoinUpToThree(a, d, b);
    JoinUpToThree(d, a, b);
    assert ReadToolSignal(e) == Join(parts, "\n");
    hide Join;
    if a == "" {
      assert parts == second + third;
    } else if b == "" {
      assert parts == first + third;
    }
    assert a != "" && b != "" && d != "" ==> parts == [a, b, d];
    assert a == "" && b != "" && d != "" ==> parts == [b, d];
    assert a != "" && b == "" && d != "" ==> parts == [a, d];
    assert a != "" && b != "" && d == "" ==> parts == [a, b];
  }

  lemma {:induction false} TrimStartKeepsInk(s: string)
    ensures Ink(TrimStart(s)) == Ink(s)
  {
    if s != "" && IsSpace(s[0]) {
      TrimStartKeepsInk(s[1..]);
    }
  }

  lemma {:induction false} CollapseKeepsInk(s: string)
    ensures Ink(CollapseRuns(s)) == Ink(s)
    decreases |s|
  {
    if s != "" {
      if IsSpace(s[0]) {
        TrimStartShorter(s[1..]);
        CollapseKeepsInk(TrimStart(s[1..]));
        TrimStartKeepsInk(s[1..]);
        assert (" " + CollapseRuns(TrimStart(s[1..])))[1..] == CollapseRuns(TrimStart(s[1..]));
      } else {
        CollapseKeepsInk(s[1..]);
        assert ([s[0]] + CollapseRuns(s[1..]))[1..] == CollapseRuns(s[1..]);
      }
    }
  }

  lemma {:induction false} NoInkIsBlank(s: string)
    ensures Ink(s) == 0 <==> IsBlank(s)
  {
    if s != "" {
      NoInkIsBlank(s[1..]);
      assert IsBlank(s) <==> IsSpace(s[0]) && IsBlank(s[1..]) by {
        assert forall i :: 0 < i < |s| ==> s[i] == s[1..][i - 1];
      }
    }
  }

  lemma BlankHasNoNormalForm(s: string)
    ensures Normalize(s) == "" <==> IsBlank(s)
  {
    var t := CollapseRuns(s);
    CollapseKeepsInk(s);
    InkTrim(t);
    NoInkIsBlank(s);
    if Normalize(s) != "" {
      var lo, hi := TrimBounds(t);
      NoInkIsBlank(t);
      assert !IsSpace(t[lo]);
    }
  }

  lemma PassExactly(c: Classifiers, e: ToolSignal)
    ensures IsPassing(c, e) <==> !NoPass(c, e)
  {
    SignalTextIs(e);
    hide ReadToolSignal, SignalText;
  }

  lemma ReproductionExactly(c: Classifiers, e: ToolSignal)
    ensures IsReproduction(c, e) <==> !NoFailureShown(c, e)
  {
    SignalTextIs(e);
    BlankHasNoNormalForm(e.outputPreview);
    BlankHasNoNormalForm(e.error);
    hide ReadToolSignal, SignalText, Normalize, IsBlank;
  }

  // ----- the whole gate -----

  /** `k` is the last successful write, or -1 if there is none. */
  ghost predicate LastWriteAt(c: Classifiers, history: seq<ToolSignal>, k: int) {
    && -1 <= k < |history|
    && (k >= 0 ==> history[k].success && c.writeLike(history[k].name))
    && forall i :: k < i < |history| ==> !(history[i].success && c.writeLike(history[i].name))
  }

  /** Nothing after the last write verifies it. */
  ghost predicate Unverified(c: Classifiers, history: seq<ToolSignal>, k: int)
    requires LastWriteAt(c, history, k)
  {
    k >= 0 && forall i :: k < i < |history| ==> NoPass(c, history[i])
  }

  /** A debug fix was written before the failure was shown. */
  ghost predicate Unreproduced(c: Classifiers, history: seq<ToolSignal>, k: int, mode: TaskMode)
    requires LastWriteAt(c, history, k)
  {
    mode == DebugFix && k >= 0 && forall i :: 0 <= i < k ==> NoFailureShown(c, history[i])
  }

  /** A call of the batch that changed files, or after which the verifier is to run. */
  ghost predicate Triggered(c: Classifiers, batch: seq<Execution>) {
    exists i :: 0 <= i < |batch| && (batch[i].changedFiles || (batch[i].ok && c.triggersVerifier(batch[i].name)))
  }

  ghost predicate BatchVerifies(c: Classifiers, batch: seq<Execution>) {
    exists i :: 0 <= i < |batch| && !NoPass(c, batch[i].signal)
  }

  ghost predicate BatchShowsFailure(c: Classifiers, batch: seq<Execution>) {
    exists i :: 0 <= i < |batch| && !NoFailureShown(c, batch[i].signal)
  }

  /** Somebody wants the last write verified: the task, the runtime, or the write itself. */
  predicate Required(mode: TaskMode, runtime: Option<RuntimeRun>, k: int) {
    mode == EngineeringEdit || mode == DebugFix || runtime.Some? || k >= 0
  }

  ghost predicate Evaluated(
      c: Classifiers, history: seq<ToolSignal>, k: int, batch: seq<Execution>, mode: TaskMode,
      runtime: Option<RuntimeRun>)
    requires LastWriteAt(c, history, k)
  {
    && Required(mode, runtime, k)
    && (|| Triggered(c, batch)
        || (k >= 0 && BatchVerifies(c, batch))
        || (k >= 0 && mode == DebugFix && BatchShowsFailure(c, batch))
        || (batch == [] && Unverified(c, history, k)))
  }

  /** What the runtime's own verification reports, if it runs and has something to report. */
  ghost function RuntimeReport(
      c: Classifiers, k: int, batch: seq<Execution>, mode: TaskMode, runtime: Option<RuntimeRun>): Option<string>
    requires runtime.Some? ==> runtime.value.Ran?
  {
    if runtime.Some? && Triggered(c, batch) then Some(Normalize(runtime.value.reported)) else None
  }

  /** All that blocks, in the order in which it is said. */
  ghost function Demands(
      c: Classifiers, history: seq<ToolSignal>, k: int, batch: seq<Execution>, mode: TaskMode,
      runtime: Option<RuntimeRun>): seq<string>
    requires LastWriteAt(c, history, k) && (runtime.Some? ==> runtime.value.Ran?)
  {
    var report := RuntimeReport(c, k, batch, mode, runtime);
    (if report.Some? && report.value != "" then [report.value] else [])
    + (if Unverified(c, history, k) && report != Some("")
       then ["Do not finish yet."
             + "\nThe latest file write still needs a successful verification pass."
             + "\nRun verification after the write, then continue only after it passes."]
       else [])
    + (if Unreproduced(c, history, k, mode)
       then ["Do not finish yet."
             + "\nTask mode is debug_fix, so the latest fix must follow reproduce -> fix -> verify."
             + "\nReproduce the failure before the next write, then apply the fix again, then verify it."]
       else [])
  }

  /** Paragraphs, with an empty line between two of them. */
  function Paragraphs(parts: seq<string>): string {
    if |parts| == 0 then ""
    else if |parts| == 1 then parts[0]
    else if |parts| == 2 then parts[0] + "\n\n" + parts[1]
    else parts[0] + "\n\n" + (parts[1] + "\n\n" + parts[2])
  }

  lemma AnyIs(batch: seq<Execution>, p: Execution -> bool)
    ensures AnyExecution(batch, p) <==> exists i :: 0 <= i < |batch| && p(batch[i])
  {
  }

  lemma BatchIsTold(c: Classifiers, batch: seq<Execution>)
    ensures AnyExecution(batch, (x: Execution) => Triggers(c, x)) <==> Triggered(c, batch)
    ensures AnyExecution(batch, (x: Execution) => IsPassing(c, x.signal)) <==> BatchVerifies(c, batch)
    ensures AnyExecution(batch, (x: Execution) => IsReproduction(c, x.signal)) <==> BatchShowsFailure(c, batch)
  {
    hide IsPassing, IsReproduction, NoPass, NoFailureShown;
    forall i | 0 <= i < |batch|
      ensures (IsPassing(c, batch[i].signal) <==> !NoPass(c, batch[i].signal))
              && (IsReproduction(c, batch[i].signal) <==> !NoFailureShown(c, batch[i].signal))
    {
      PassExactly(c, batch[i].signal);
      ReproductionExactly(c, batch[i].signal);
    }
  }

  /** The scan of the history, told from its last write. */
  lemma ScanIsTold(c: Classifiers, history: seq<ToolSignal>, k: int, mode: TaskMode)
    requires LastWriteAt(c, history, k)
    ensures var flags := Scan(c, history);
            && (flags.hasWrite <==> k >= 0)
            && (flags.hasWrite && !flags.verifiedSince <==> Unverified(c, history, k))
            && (mode == DebugFix && flags.hasWrite && !flags.reproducedBefore <==> Unreproduced(c, history, k, mode))
  {
    hide IsPassing, IsReproduction, NoPass, NoFailureShown;
    assert LastIndex(history, e => IsWrite(c, e)) == k;
    if k >= 0 {
      var later, earlier := history[k + 1..], history[..k];
      forall i | 0 <= i < |history|
        ensures (IsPassing(c, history[i]) <==> !NoPass(c, history[i]))
                && (IsReproduction(c, history[i]) <==> !NoFailureShown(c, history[i]))
      {
        PassExactly(c, history[i]);
        ReproductionExactly(c, history[i]);
      }
      assert AnyEntry(later, e => IsPassing(c, e)) <==> !Unverified(c, history, k) by {
        if i :| 0 <= i < |later| && IsPassing(c, later[i]) {
          assert later[i] == history[k + 1 + i];
        }
        if i :| k < i < |history| && !NoPass(c, history[i]) {
          assert later[i - k - 1] == history[i];
        }
      }
      assert AnyEntry(earlier, e => IsReproduction(c, e))
             <==> exists i :: 0 <= i < k && !NoFailureShown(c, history[i]) by {
        if i :| 0 <= i < |earlier| && IsReproduction(c, earlier[i]) {
          assert earlier[i] == history[i];
        }
        if i :| 0 <= i < k && !NoFailureShown(c, history[i]) {
          assert earlier[i] == history[i];
        }
      }
    }
  }

  lemma JoinIsParagraphs(parts: seq<string>)
    requires |parts| <= 3
    ensures Join(parts, "\n\n") == Paragraphs(parts)
  {
    if |parts| == 2 {
      assert parts[1..] == [parts[1]];
    } else if |parts| == 3 {
      assert parts[1..] == [parts[1], parts[2]] && parts[1..][1..] == [parts[2]];
    }
  }

  lemma BlockersAre(
      c: Classifiers, history: seq<ToolSignal>, k: int, batch: seq<Execution>, mode: TaskMode,
      runtime: Option<RuntimeRun>, plan: Plan, run: RuntimeRun)
    requires LastWriteAt(c, history, k) && (runtime.Some? ==> runtime.value.Ran?)
    requires plan == MakePlan(c, history, batch, mode, runtime.Some?) && plan.shouldEvaluate
    requires run == if plan.shouldInvokeRuntime then runtime.value else NotRun
    ensures Blockers(plan, run) == Demands(c, history, k, batch, mode, runtime) && |Blockers(plan, run)| <= 3
  {
    BatchIsTold(c, batch);
    ScanIsTold(c, history, k, mode);
    hide Scan, AnyExecution, Triggered, BatchVerifies, BatchShowsFailure, Unverified, Unreproduced, Normalize;
  }

  /** The gate, told from names, outcomes and texts: when it evaluates, when it blocks, and with which demands. */
  lemma GateExactly(
      c: Classifiers, history: seq<ToolSignal>, k: int, batch: seq<Execution>, mode: TaskMode,
      runtime: Option<RuntimeRun>)
    requires LastWriteAt(c, history, k) && (runtime.Some? ==> runtime.value.Ran?)
    ensures var g := Gate(c, history, batch, mode, runtime);
            var demands := Demands(c, history, k, batch, mode, runtime);
            && (g.invoked <==> Evaluated(c, history, k, batch, mode, runtime))
            && (g.blocked <==> g.invoked && demands != [])
            && (g.completionBlocker == if g.blocked then Some(Paragraphs(demands)) else None)
  {
    BatchIsTold(c, batch);
    ScanIsTold(c, history, k, mode);
    hide Scan, AnyExecution, Triggered, BatchVerifies, BatchShowsFailure, Unverified, Unreproduced, BuildSignal,
      Appended, Normalize;
    var plan := MakePlan(c, history, batch, mode, runtime.Some?);
    if plan.shouldEvaluate {
      var run := if plan.shouldInvokeRuntime then runtime.value else NotRun;
      BlockersAre(c, history, k, batch, mode, runtime, plan, run);
      JoinIsParagraphs(Blockers(plan, run));
    }
  }

  // ----- what the gate says -----

  /** What the runtime's own verification adds to the session. */
  ghost function RuntimeMessages(c: Classifiers, batch: seq<Execution>, runtime: Option<RuntimeRun>): seq<string>
    requires runtime.Some? ==> runtime.value.Ran?
  {
    if runtime.Some? && Triggered(c, batch) then runtime.value.messages else []
  }

  /** No two of them say the same, and none says what has been said. */
  ghost predicate SaysOnce(said: seq<string>, messages: seq<string>) {
    && (forall i, j :: 0 <= i < j < |messages| ==> Normalize(messages[i]) != Normalize(messages[j]))
    && (forall i :: 0 <= i < |messages| ==> !Says(said, Normalize(messages[i])))
  }

  /** Messages out of `messages` that are not blank, say nothing that `seen` holds, and no two the same. */
  ghost predicate AreNew(added: seq<string>, messages: seq<string>, seen: set<string>) {
    && (forall i :: 0 <= i < |added| ==>
          added[i] in messages && Normalize(added[i]) != "" && Normalize(added[i]) !in seen)
    && (forall i, j :: 0 <= i < j < |added| ==> Normalize(added[i]) != Normalize(added[j]))
  }

  lemma OneMoreIsNew(m: string, rest: seq<string>, messages: seq<string>, seen: set<string>)
    requires AreNew(rest, messages, seen + {Normalize(m)}) && Normalize(m) != "" && Normalize(m) !in seen
    ensures AreNew([m] + rest, [m] + messages, seen)
  {
    hide Normalize;
    var added := [m] + rest;
    forall i | 0 < i < |added|
      ensures added[i] in messages && Normalize(added[i]) != "" && Normalize(added[i]) !in seen + {Normalize(m)}
    {
      assert added[i] == rest[i - 1];
    }
    forall i, j | 0 < i < j < |added| ensures Normalize(added[i]) != Normalize(added[j]) {
      assert added[i] == rest[i - 1] && added[j] == rest[j - 1];
    }
  }

  lemma {:induction false} NewMessagesAre(messages: seq<string>, seen: set<string>)
    ensures AreNew(NewMessages(messages, seen), messages, seen)
    decreases messages
  {
    hide Normalize;
    if messages != [] {
      var n := Normalize(messages[0]);
      assert [messages[0]] + messages[1..] == messages;
      if n == "" || n in seen {
        NewMessagesAre(messages[1..], seen);
      } else {
        NewMessagesAre(messages[1..], seen + {n});
        OneMoreIsNew(messages[0], NewMessages(messages[1..], seen + {n}), messages[1..], seen);
      }
    }
  }

  lemma NewMessagesSayOnce(messages: seq<string>, said: seq<string>)
    ensures var added := NewMessages(messages, Elements(Normalized(said)));
            SaysOnce(said, added) && forall m :: m in added ==> m in messages && Normalize(m) != ""
  {
    var seen := Elements(Normalized(said));
    var added := NewMessages(messages, seen);
    NewMessagesAre(messages, seen);
    hide Normalize, Normalized, NewMessages;
    forall i | 0 <= i < |added| ensures !Says(said, Normalize(added[i])) {
      NormalizedSays(said, Normalize(added[i]));
    }
  }

  /** The report is said last, if the runtime has said nothing itself and no demand says it. */
  lemma RecoveryIs(plan: Plan, run: RuntimeRun, said: seq<string>)
    requires said == (if run.Ran? then run.messages else []) + SyntheticMessages(plan, run)
    ensures var rest, demands := Recovery(plan, run), RecoveryMessages(plan, run);
            var report := RuntimeBlocker(run);
            && SaysOnce(said, rest)
            && (forall m :: m in rest ==> m in demands || (report == Some(m) && said == []))
            && (report.Some? && said == [] ==> Says(rest, Normalize(report.value)))
  {
    hide Normalize, Normalized, NewMessages, RecoveryMessages;
    var report := RuntimeBlocker(run);
    var added := NewMessages(RecoveryMessages(plan, run), Elements(Normalized(said)));
    NewMessagesSayOnce(RecoveryMessages(plan, run), said);
    var rest := Recovery(plan, run);
    if report.Some? {
      NormalizeTwice(run.reported);
      NormalizedSays(added, report.value);
      NormalizedSays(said, report.value);
      if rest == added + [report.value] {
        assert rest[|added|] == report.value;
        forall i | 0 <= i < |added| ensures Normalize(added[i]) != report.value {
          assert !Says(added, report.value);
        }
      } else {
        assert rest == added;
      }
      SaysMore(added, [report.value], report.value);
      assert [report.value][0] == report.value;
    } else {
      assert rest == added + [] == added;
    }
  }

  /** Every demand is said, and nothing else: the runtime's report only if it has said nothing itself. */
  ghost predicate DemandsSaid(heard: seq<string>, rest: seq<string>, demands: seq<string>, report: Option<string>) {
    && SaysOnce(heard, rest)
    && (forall m :: m in rest ==> m in demands)
    && (forall d :: d in demands && (heard == [] || report != Some(d)) ==> Says(heard + rest, Normalize(d)))
  }

  /** What the gate adds to the session after what the runtime has said: the demands, each once, or that the last
      write is verified, if the batch has shown so and the runtime was not asked. */
  lemma GateSays(
      c: Classifiers, history: seq<ToolSignal>, k: int, batch: seq<Execution>, mode: TaskMode,
      runtime: Option<RuntimeRun>)
    requires LastWriteAt(c, history, k) && (runtime.Some? ==> runtime.value.Ran?)
    requires Gate(c, history, batch, mode, runtime).invoked
    ensures var g := Gate(c, history, batch, mode, runtime);
            var demands := Demands(c, history, k, batch, mode, runtime);
            var report, heard := RuntimeReport(c, k, batch, mode, runtime), RuntimeMessages(c, batch, runtime);
            && heard <= g.appended
            && var rest := g.appended[|heard|..];
               if demands == [] then
                 rest == if report.None? && k >= 0 && BatchVerifies(c, batch)
                         then ["Verification passed via tool evidence."] else []
               else DemandsSaid(heard, rest, demands, report)
  {
    var plan := MakePlan(c, history, batch, mode, runtime.Some?);
    var run := if plan.shouldInvokeRuntime then runtime.value else NotRun;
    BlockersAre(c, history, k, batch, mode, runtime, plan, run);
    RunIsTold(c, history, k, batch, mode, runtime, plan, run);
    hide Demands, RuntimeReport, RuntimeMessages, BatchVerifies, Blockers, RuntimeBlocker, Appended, BuildSignal,
      DemandsSaid, MakePlan;
    AppendedSays(plan, run);
    ReportMayBeEmpty(
      RuntimeMessages(c, batch, runtime), Appended(plan, run)[|RuntimeMessages(c, batch, runtime)|..],
      Blockers(plan, run), RuntimeBlocker(run), RuntimeReport(c, k, batch, mode, runtime));
  }

  /** What the runtime has said and reported, in the terms of a run of the gate. */
  lemma RunIsTold(
      c: Classifiers, history: seq<ToolSignal>, k: int, batch: seq<Execution>, mode: TaskMode,
      runtime: Option<RuntimeRun>, plan: Plan, run: RuntimeRun)
    requires LastWriteAt(c, history, k) && (runtime.Some? ==> runtime.value.Ran?)
    requires plan == MakePlan(c, history, batch, mode, runtime.Some?)
    requires run == if plan.shouldInvokeRuntime then runtime.value else NotRun
    ensures var report := RuntimeReport(c, k, batch, mode, runtime);
            && RuntimeMessages(c, batch, runtime) == (if run.Ran? then run.messages else [])
            && (run.Ran? <==> report.Some?)
            && RuntimeBlocker(run) == (if report == Some("") then None else report)
            && (plan.flags.hasWrite && plan.batchHasVerificationEvidence <==> k >= 0 && BatchVerifies(c, batch))
  {
    BatchIsTold(c, batch);
    ScanIsTold(c, history, k, mode);
    hide Scan, AnyExecution, Triggered, BatchVerifies, BatchShowsFailure, Unverified, Unreproduced, Normalize;
  }

  lemma ReportMayBeEmpty(
      heard: seq<string>, rest: seq<string>, demands: seq<string>, blocker: Option<string>, report: Option<string>)
    requires blocker == if report == Some("") then None else report
    ensures DemandsSaid(heard, rest, demands, blocker) ==> DemandsSaid(heard, rest, demands, report)
  {
    hide Normalize, Says, SaysOnce;
  }

  /** What a run of the gate adds. */
  lemma AppendedSays(plan: Plan, run: RuntimeRun)
    ensures var heard := if run.Ran? then run.messages else [];
            && heard <= Appended(plan, run)
            && var rest := Appended(plan, run)[|heard|..];
               if Blockers(plan, run) == [] then
                 rest == if !run.Ran? && plan.flags.hasWrite && plan.batchHasVerificationEvidence
                         then ["Verification passed via tool evidence."] else []
               else DemandsSaid(heard, rest, Blockers(plan, run), RuntimeBlocker(run))
  {
    hide Normalize, Recovery, DemandsSaid, RecoveryMessages;
    var heard := if run.Ran? then run.messages else [];
    var synthetic := SyntheticMessages(plan, run);
    assert Appended(plan, run) == heard + (synthetic + Recovery(plan, run));
    assert Appended(plan, run)[|heard|..] == synthetic + Recovery(plan, run);
    if Blockers(plan, run) == [] {
      NothingToRecover(plan, run);
      assert synthetic + [] == synthetic;
    } else {
      assert synthetic == [] && [] + Recovery(plan, run) == Recovery(plan, run);
      DemandsAreAppended(plan, run, heard);
    }
  }

  lemma NothingToRecover(plan: Plan, run: RuntimeRun)
    requires Blockers(plan, run) == []
    ensures Recovery(plan, run) == []
  {
    hide Normalize;
  }

  lemma DemandsAreAppended(plan: Plan, run: RuntimeRun, heard: seq<string>)
    requires heard == (if run.Ran? then run.messages else []) && Blockers(plan, run) != []
    ensures DemandsSaid(heard, Recovery(plan, run), Blockers(plan, run), RuntimeBlocker(run))
  {
    hide Normalize, Recovery, RecoveryMessages;
    var rest := Recovery(plan, run);
    assert SyntheticMessages(plan, run) == [] && heard + [] == heard;
    RecoveryIs(plan, run, heard);
    assert Appended(plan, run) == heard + rest;
    forall d | d in Blockers(plan, run) && (heard == [] || RuntimeBlocker(run) != Some(d))
      ensures Says(heard + rest, Normalize(d))
    {
      if d in RecoveryMessages(plan, run) {
        DemandsAreSaid(plan, run, d);
      } else {
        assert [] + rest == rest;
      }
    }
  }

  /** The recorded signal holds what has been added, blank messages aside, on single lines; only where there is
      nothing else to tell it holds the demands. */
  lemma SignalExactly(
      c: Classifiers, history: seq<ToolSignal>, k: int, batch: seq<Execution>, mode: TaskMode,
      runtime: Option<RuntimeRun>)
    requires LastWriteAt(c, history, k) && (runtime.Some? ==> runtime.value.Ran?)
    requires Gate(c, history, batch, mode, runtime).invoked
    ensures var g := Gate(c, history, batch, mode, runtime);
            var told := Normalized(g.appended);
            var demanded := Normalize(Paragraphs(Demands(c, history, k, batch, mode, runtime)));
            g.signal == if told != [] then Some(Signal(!g.blocked, g.blocked, Barred(told), told))
                        else if g.blocked then Some(Signal(false, true, demanded, [demanded]))
                        else None
  {
    GateExactly(c, history, k, batch, mode, runtime);
    hide Scan, AnyExecution, Triggered, BatchVerifies, BatchShowsFailure, Unverified, Unreproduced, Normalize,
      Appended, Normalized, Demands, Blockers, Evaluated;
    var plan := MakePlan(c, history, batch, mode, runtime.Some?);
    var run := if plan.shouldInvokeRuntime then runtime.value else NotRun;
    BlockersAre(c, history, k, batch, mode, runtime, plan, run);
    JoinIsParagraphs(Blockers(plan, run));
    JoinIsBarred(Normalized(Appended(plan, run)));
  }

  /** One after the other, with a bar between two of them. */
  function Barred(parts: seq<string>): string {
    if parts == [] then ""
    else
      var last := |parts| - 1;
      if last == 0 then parts[0] else Barred(parts[..last]) + (" | " + parts[last])
  }

  lemma {:induction false} BarredFrom(first: string, parts: seq<string>)
    requires parts != []
    ensures Barred([first] + parts) == first + (" | " + Barred(parts))
    decreases |parts|
  {
    var all, last := [first] + parts, |parts| - 1;
    assert all[..last + 1] == [first] + parts[..last] && all[last + 1] == parts[last];
    if last == 0 {
      assert all[..1] == [first];
    } else {
      BarredFrom(first, parts[..last]);
      var front := Barred(parts[..last]);
      Assoc(first, " | " + front, " | " + parts[last]);
      Assoc(" | ", front, " | " + parts[last]);
    }
  }

  lemma {:induction false} JoinIsBarred(parts: seq<string>)
    ensures Join(parts, " | ") == Barred(parts)
    decreases |parts|
  {
    if |parts| > 1 {
      JoinIsBarred(parts[1..]);
      BarredFrom(parts[0], parts[1..]);
      assert [parts[0]] + parts[1..] == parts;
      Assoc(parts[0], " | ", Join(parts[1..], " | "));
    }
  }
}
