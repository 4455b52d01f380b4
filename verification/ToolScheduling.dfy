/**
 The execution of a batch of tool calls (src/application/chat/tool-orchestrator.ts and
 src/core/agent/agent-tool-execution.ts), as it is specified: the calls are prepared, and the prepared
 calls are invoked and finalised one by one.  `ToolInterleaving` says when running them together gives
 the same, and `ToolOrchestrator` has the loops.
 */
module ToolScheduling {
  import opened Options
  import opened Text

  datatype ToolCall = ToolCall(id: string, name: string, arguments: string)

  datatype Message = Message(isToolResult: bool, toolCallId: string, content: string)

  datatype HistoryEntry = HistoryEntry(
    id: string, name: string, success: bool, outputPreview: string, error: string)

  datatype FileChange = FileChange(path: string, success: bool, rollbackPointId: Option<string>)

  /** The logs of a session; they only grow while a batch runs. */
  datatype Session = Session(
    messages: seq<Message>,
    toolHistory: seq<HistoryEntry>,
    commandHistory: seq<string>,
    fileChanges: seq<FileChange>)

  datatype PermissionMode = Allow | Ask | Deny

  datatype Prepared = Prepared(
    call: ToolCall, permissionMode: PermissionMode,
    blocked: bool, canRunInParallel: bool, checkpointRequired: bool)

  /**
   The environment.  `W` is the workspace, `L` the local state of a running invocation, `R` a raw
   result, `F` a final one.  Preparing and finalising run hooks and may write files, so they return
   a new workspace.  An invocation runs in atomic steps until it has a result (which may be
   `undefined`); `remaining` bounds its steps.
   */
  datatype Tools<!W, !L, !R, !F> = Tools(
    prepare: (ToolCall, W, Session) -> (Prepared, W, Session),
    start: Prepared -> L,
    step: (Prepared, L, W, Session) -> (L, W, Session),
    result: L -> Option<Option<R>>,
    remaining: (Prepared, L, W, Session) -> nat,
    finalize: (Prepared, Option<R>, W, Session) -> (Session, F, W),
    denied: F -> bool)

  /** Every invocation ends. */
  ghost predicate Ends<W(!new), L(!new), R(!new), F(!new)>(t: Tools<W, L, R, F>) {
    forall p, l, w, s :: t.result(l).None? ==>
      t.remaining(p, t.step(p, l, w, s).0, t.step(p, l, w, s).1, t.step(p, l, w, s).2) < t.remaining(p, l, w, s)
  }
  /** An invocation on its own. */
  ghost function Invoke<W(!new), L(!new), R(!new), F(!new)>(
      t: Tools<W, L, R, F>, p: Prepared, l: L, w: W, s: Session): (Option<R>, W, Session)
    requires Ends(t)
    decreases t.remaining(p, l, w, s)
  {
    if t.result(l).Some? then (t.result(l).value, w, s)
    else
      var next := t.step(p, l, w, s);
      Invoke(t, p, next.0, next.1, next.2)
  }

  // ----- what a call leaves behind -----

  datatype ToolExecutionResult = ToolExecutionResult(
    id: string,
    name: string,
    ok: bool,
    permissionDenied: bool,
    output: string,
    toolHistoryEntry: Option<HistoryEntry>,
    commandHistory: seq<string>,
    fileChanges: seq<FileChange>,
    modelMessages: seq<Message>,
    checkpoint: Checkpoint)

  datatype Checkpoint = NotRequired | Captured(rollbackPointId: string) | Missing

  function ToolMessagesFor(messages: seq<Message>, id: string): seq<Message> {
    if messages == [] then []
    else (if messages[0].isToolResult && messages[0].toolCallId == id then [messages[0]] else [])
         + ToolMessagesFor(messages[1..], id)
  }

  function FallbackContent(entry: Option<HistoryEntry>): string {
    if entry.None? then ""
    else if entry.value.success then entry.value.outputPreview
    else
      var error := Trim(entry.value.error);
      if error == "" then entry.value.outputPreview
      else if "Error:" <= error then error else "Error: " + error
  }

  function LastRollbackPoint(changes: seq<FileChange>): Option<string> {
    if changes == [] then None
    else if changes[|changes| - 1].rollbackPointId.Some? then changes[|changes| - 1].rollbackPointId
    else LastRollbackPoint(changes[..|changes| - 1])
  }

  function CheckpointOf(p: Prepared, changes: seq<FileChange>): Checkpoint {
    if !p.checkpointRequired then NotRequired
    else if LastRollbackPoint(changes).Some? && LastRollbackPoint(changes).value != ""
    then Captured(LastRollbackPoint(changes).value)
    else Missing
  }

  /** The parts of the logs written since the snapshot. */
  function Since(before: Session, after: Session): Session {
    Session(
      if |before.messages| <= |after.messages| then after.messages[|before.messages|..] else [],
      if |before.toolHistory| <= |after.toolHistory| then after.toolHistory[|before.toolHistory|..] else [],
      if |before.commandHistory| <= |after.commandHistory| then after.commandHistory[|before.commandHistory|..] else [],
      if |before.fileChanges| <= |after.fileChanges| then after.fileChanges[|before.fileChanges|..] else [])
  }

  /** The result of a call from what was written since the snapshot; a missing tool message is added. */
  function Collect(p: Prepared, before: Session, after: Session, denied: bool): (ToolExecutionResult, Session) {
    var delta := Since(before, after);
    var entry := if delta.toolHistory == [] then None else Some(delta.toolHistory[0]);
    var collected := ToolMessagesFor(delta.messages, p.call.id);
    var fallback := FallbackContent(entry);
    var synthesized := Message(true, p.call.id, fallback);
    var add := collected == [] && fallback != "";
    var messages := if add then [synthesized] else collected;
    (ToolExecutionResult(
       p.call.id, p.call.name,
       entry.Some? && entry.value.success,
       denied,
       if messages == [] then fallback else messages[|messages| - 1].content,
       entry, delta.commandHistory, delta.fileChanges, messages,
       CheckpointOf(p, delta.fileChanges)),
     if add then after.(messages := after.messages + [synthesized]) else after)
  }

  /** How the result of a call is made from its snapshot, the session after it was finalised, and the final result. */
  type Collector<!F, !T> = (Prepared, Session, Session, F) -> (T, Session)

  /** The orchestrator collects what was written since the snapshot; the agent's own loop returns the final result. */
  function Orchestrator<W, L, R, F>(t: Tools<W, L, R, F>): Collector<F, ToolExecutionResult> {
    (p: Prepared, before: Session, after: Session, f: F) => Collect(p, before, after, t.denied(f))
  }

  function AgentLoop<F>(): Collector<F, F> {
    (p: Prepared, before: Session, after: Session, f: F) => (f, after)
  }

  // ----- the specification: one by one -----

  datatype Outcome<+T, +W> = Outcome(results: seq<T>, workspace: W, session: Session)

  ghost function InvokeUnlessBlocked<W(!new), L(!new), R(!new), F(!new)>(
      t: Tools<W, L, R, F>, p: Prepared, w: W, s: Session): (Option<R>, W, Session)
    requires Ends(t)
  {
    if p.blocked then (None, w, s) else Invoke(t, p, t.start(p), w, s)
  }

  ghost function RunOne<W(!new), L(!new), R(!new), F(!new), T(!new)>(
      t: Tools<W, L, R, F>, c: Collector<F, T>, p: Prepared, w: W, s: Session): (T, W, Session)
    requires Ends(t)
  {
    var raw := InvokeUnlessBlocked(t, p, w, s);
    var final := t.finalize(p, raw.0, raw.1, raw.2);
    var collected := c(p, s, final.0, final.1);
    (collected.0, final.2, collected.1)
  }

  ghost function OneByOne<W(!new), L(!new), R(!new), F(!new), T(!new)>(
      t: Tools<W, L, R, F>, c: Collector<F, T>, ps: seq<Prepared>, w: W, s: Session): Outcome<T, W>
    requires Ends(t)
    decreases ps
  {
    if ps == [] then Outcome([], w, s)
    else
      var one := RunOne(t, c, ps[0], w, s);
      var rest := OneByOne(t, c, ps[1..], one.1, one.2);
      rest.(results := [one.0] + rest.results)
  }

  // ----- the concurrent invocation of a batch -----

  predicate Finished<W, L, R, F>(t: Tools<W, L, R, F>, p: Prepared, l: L) {
    p.blocked || t.result(l).Some?
  }
  /** Preparing all calls, one after the other. */
  function PrepareAll<W, L, R, F>(
      t: Tools<W, L, R, F>, calls: seq<ToolCall>, w: W, s: Session): (seq<Prepared>, W, Session)
  {
    if calls == [] then ([], w, s)
    else
      var before := PrepareAll(t, calls[..|calls| - 1], w, s);
      var next := t.prepare(calls[|calls| - 1], before.1, before.2);
      (before.0 + [next.0], next.1, next.2)
  }

  // ----- what one by one means -----

  /** The environments differ at most in how they would run calls that are blocked. */
  ghost predicate AgreeUnlessBlocked<W(!new), L(!new), R(!new), F(!new)>(
      t: Tools<W, L, R, F>, u: Tools<W, L, R, F>)
  {
    && t.result == u.result && t.finalize == u.finalize && t.denied == u.denied
    && (forall p: Prepared :: !p.blocked ==> t.start(p) == u.start(p))
    && (forall p: Prepared, l, w, s :: !p.blocked ==> t.step(p, l, w, s) == u.step(p, l, w, s))
  }

  lemma {:induction false} InvokeAgrees<W(!new), L(!new), R(!new), F(!new)>(
      t: Tools<W, L, R, F>, u: Tools<W, L, R, F>, p: Prepared, l: L, w: W, s: Session)
    requires Ends(t) && Ends(u) && AgreeUnlessBlocked(t, u) && !p.blocked
    ensures Invoke(t, p, l, w, s) == Invoke(u, p, l, w, s)
    decreases t.remaining(p, l, w, s)
  {
    if t.result(l).None? {
      var next := t.step(p, l, w, s);
      assert next == u.step(p, l, w, s);
      InvokeAgrees(t, u, p, next.0, next.1, next.2);
    }
  }

  /** Blocked calls are never invoked: what they would do makes no difference. */
  lemma {:induction false} BlockedCallsAreNeverInvoked<W(!new), L(!new), R(!new), F(!new), T(!new)>(
      t: Tools<W, L, R, F>, u: Tools<W, L, R, F>, c: Collector<F, T>, ps: seq<Prepared>, w: W, s: Session)
    requires Ends(t) && Ends(u) && AgreeUnlessBlocked(t, u)
    ensures OneByOne(t, c, ps, w, s) == OneByOne(u, c, ps, w, s)
    decreases ps
  {
    if ps != [] {
      if !ps[0].blocked {
        InvokeAgrees(t, u, ps[0], t.start(ps[0]), w, s);
      }
      var one := RunOne(t, c, ps[0], w, s);
      assert one == RunOne(u, c, ps[0], w, s);
      BlockedCallsAreNeverInvoked(t, u, c, ps[1..], one.1, one.2);
    }
  }

  ghost function SessionAfter<W(!new), L(!new), R(!new), F(!new)>(
      t: Tools<W, L, R, F>, p: Prepared, w: W, s: Session): Session
    requires Ends(t)
  {
    var raw := InvokeUnlessBlocked(t, p, w, s);
    t.finalize(p, raw.0, raw.1, raw.2).0
  }

  /** A call records exactly one execution, its own, while it is invoked or while it is finalised. */
  ghost predicate RecordsOnce<W(!new), L(!new), R(!new), F(!new)>(t: Tools<W, L, R, F>)
    requires Ends(t)
  {
    forall p: Prepared, w, s :: RecordedOne(p, s, SessionAfter(t, p, w, s))
  }

  predicate RecordedOne(p: Prepared, s: Session, after: Session) {
    && |after.toolHistory| == |s.toolHistory| + 1
    && s.toolHistory == after.toolHistory[..|s.toolHistory|]
    && after.toolHistory[|s.toolHistory|].id == p.call.id
  }

  /** Each result carries the entry that its own call recorded, and the history grows by these in order. */
  ghost predicate OwnEntries(
      ps: seq<Prepared>, results: seq<ToolExecutionResult>, before: seq<HistoryEntry>, after: seq<HistoryEntry>)
  {
    && |results| == |ps| && |after| == |before| + |ps| && before <= after
    && forall i :: 0 <= i < |ps| ==>
         && results[i].id == ps[i].call.id && results[i].name == ps[i].call.name
         && results[i].toolHistoryEntry == Some(after[|before| + i])
         && results[i].ok == after[|before| + i].success
         && after[|before| + i].id == ps[i].call.id
  }

  lemma OneOwnEntry<W(!new), L(!new), R(!new), F(!new)>(
      t: Tools<W, L, R, F>, p: Prepared, w: W, s: Session)
    requires Ends(t) && RecordsOnce(t)
    ensures var one := RunOne(t, Orchestrator(t), p, w, s);
            && RecordedOne(p, s, one.2)
            && one.0.id == p.call.id && one.0.name == p.call.name
            && one.0.toolHistoryEntry == Some(one.2.toolHistory[|s.toolHistory|])
            && one.0.ok == one.2.toolHistory[|s.toolHistory|].success
  {
    assert RecordedOne(p, s, SessionAfter(t, p, w, s));
  }

  lemma {:induction false} EachResultHasItsOwnEntry<W(!new), L(!new), R(!new), F(!new)>(
      t: Tools<W, L, R, F>, ps: seq<Prepared>, w: W, s: Session)
    requires Ends(t) && RecordsOnce(t)
    ensures var o := OneByOne(t, Orchestrator(t), ps, w, s);
            OwnEntries(ps, o.results, s.toolHistory, o.session.toolHistory)
    decreases ps
  {
    if ps != [] {
      var one := RunOne(t, Orchestrator(t), ps[0], w, s);
      OneOwnEntry(t, ps[0], w, s);
      EachResultHasItsOwnEntry(t, ps[1..], one.1, one.2);
      var o := OneByOne(t, Orchestrator(t), ps, w, s);
      var rest := OneByOne(t, Orchestrator(t), ps[1..], one.1, one.2);
      ConsOwnEntries(ps, one.0, rest.results, s.toolHistory, one.2.toolHistory, rest.session.toolHistory);
    }
  }

  lemma ConsOwnEntries(
      ps: seq<Prepared>, first: ToolExecutionResult, rest: seq<ToolExecutionResult>,
      before: seq<HistoryEntry>, middle: seq<HistoryEntry>, after: seq<HistoryEntry>)
    requires ps != [] && |middle| == |before| + 1 && before <= middle
    requires middle[|before|].id == ps[0].call.id
    requires first.id == ps[0].call.id && first.name == ps[0].call.name
    requires first.toolHistoryEntry == Some(middle[|before|]) && first.ok == middle[|before|].success
    requires OwnEntries(ps[1..], rest, middle, after)
    ensures OwnEntries(ps, [first] + rest, before, after)
  {
  }
}
