/**
 The file tools as an environment of the tool loops (src/core/agent/tools/file-tools.ts,
 src/core/agent/tools/read-any-file/index.ts, src/core/agent/tools/tool.ts).  Reads are parallel-safe,
 yet each records in a shared map what it has read, and writes go by that map.
 */
module FileReads {
  import opened Options
  import opened ToolScheduling
  import opened ToolInterleaving
  import opened ToolOrchestrator
  import opened ToolPreparation

  const MAX_FULL_READ_BYTES := 64 * 1024

  datatype Node = Directory | File(content: string, size: nat, mtimeMs: real)

  /** The part of a read record that anything goes by. */
  datatype ReadState = ReadState(fullFile: bool, size: nat, mtimeMs: real)

  datatype Disk = Disk(nodes: map<string, Node>, readState: map<string, ReadState>)

  datatype FileCall =
    | ReadFile(path: string, startLine: Option<int>, endLine: Option<int>)
    | ReadAnyFile(path: string)
    | WriteFile(path: string, content: string)

  datatype Output = Output(success: bool, text: string)

  /** A read first looks at the file, and later reads it. */
  datatype Progress = Begin | Opened(record: ReadState) | Done(output: Output)

  /**
   What the tools leave to others: what a call says, the permission rules, the user, the detection and
   the reading of files, the file system's stamps, and how a result is recorded in the session.
   */
  datatype Files<!F> = Files(
    decode: ToolCall -> FileCall,
    policy: (ToolCall, bool) -> PermissionMode,
    approves: ToolCall -> bool,
    textual: (string, Node) -> bool,
    read: (FileCall, Node) -> Option<string>,
    stamp: (string, Disk) -> (nat, real),
    finish: (Prepared, Option<Output>, Session) -> (Session, F),
    denied: F -> bool)

  function LineNumber(value: Option<int>, fallback: int): int {
    if value.None? then fallback else if value.value < 1 then 1 else value.value
  }

  predicate HasRange(call: FileCall) {
    call.ReadFile? && (call.startLine.Some? || call.endLine.Some?)
  }

  /** The checks before the file is read, and the record that is due if it can be. */
  function Open<F>(env: Files<F>, call: FileCall, nodes: map<string, Node>): (l: Progress)
    requires !call.WriteFile?
    ensures !l.Begin?
  {
    if call.path !in nodes then Done(Output(false, "File does not exist"))
    else
      var node := nodes[call.path];
      if node.Directory? then Done(Output(false, "Path is a directory, not a file"))
      else if call.ReadAnyFile? || !env.textual(call.path, node) then
        Opened(ReadState(true, node.size, node.mtimeMs))
      else
        var startLine := LineNumber(call.startLine, 1);
        if !HasRange(call) && node.size > MAX_FULL_READ_BYTES then
          Done(Output(false, "File is too large to read fully"))
        else if call.endLine.Some? && LineNumber(call.endLine, startLine) < startLine then
          Done(Output(false, "Invalid line range"))
        else Opened(ReadState(!HasRange(call), node.size, node.mtimeMs))
  }

  function Content<F>(env: Files<F>, call: FileCall, nodes: map<string, Node>): Option<string> {
    if call.path in nodes && nodes[call.path].File? then env.read(call, nodes[call.path]) else None
  }

  /** The file is read, and the read is recorded. */
  function Read<F>(env: Files<F>, call: FileCall, record: ReadState, w: Disk): (Progress, Disk) {
    var text := Content(env, call, w.nodes);
    if text.None? then (Done(Output(false, "Failed to read file")), w)
    else (Done(Output(true, text.value)), w.(readState := w.readState[call.path := record]))
  }

  /** An existing file may be overwritten if it was read fully and has not changed since. */
  predicate MayOverwrite(w: Disk, path: string) {
    path !in w.nodes
    || (path in w.readState && w.readState[path].fullFile
        && w.nodes[path].File? && w.nodes[path].size == w.readState[path].size
        && -1.0 <= w.nodes[path].mtimeMs - w.readState[path].mtimeMs <= 1.0)
  }

  function Write<F>(env: Files<F>, path: string, content: string, w: Disk): (Progress, Disk) {
    if !MayOverwrite(w, path) then (Done(Output(false, "Existing file must be read fully")), w)
    else
      var stamp := env.stamp(content, w);
      (Done(Output(true, "File written successfully")),
       Disk(w.nodes[path := File(content, stamp.0, stamp.1)],
            w.readState[path := ReadState(true, stamp.0, stamp.1)]))
  }

  predicate Granted<F>(env: Files<F>, p: Prepared) {
    p.permissionMode == Allow || (p.permissionMode == Ask && env.approves(p.call))
  }

  /** A call that is not granted ends at once; a write takes one step, a read two. */
  function StepFile<F>(env: Files<F>, p: Prepared, l: Progress, w: Disk): (Progress, Disk) {
    if l.Begin? && !Granted(env, p) then (Done(Output(false, "Tool approval denied")), w)
    else
      match env.decode(p.call)
      case WriteFile(path, content) => Write(env, path, content, w)
      case call => if l.Opened? then Read(env, call, l.record, w) else (Open(env, call, w.nodes), w)
  }

  function PrepareFile<F>(env: Files<F>, call: ToolCall, w: Disk): Prepared {
    var writes := env.decode(call).WriteFile?;
    var hasPriorRead := !writes || MayOverwrite(w, env.decode(call).path);
    var mode := env.policy(call, hasPriorRead);
    Prepared(call, mode, mode == Deny, mode == Allow && !writes, writes)
  }

  function FileTools<F>(env: Files<F>): Tools<Disk, Progress, Output, F> {
    Tools(
      (call: ToolCall, w: Disk, s: Session) => (PrepareFile(env, call, w), w, s),
      (p: Prepared) => Begin,
      (p: Prepared, l: Progress, w: Disk, s: Session) => (StepFile(env, p, l, w).0, StepFile(env, p, l, w).1, s),
      (l: Progress) => if l.Done? then Some(Some(l.output)) else None,
      (p: Prepared, l: Progress, w: Disk, s: Session) => if l.Begin? then 2 else if l.Opened? then 1 else 0,
      (p: Prepared, raw: Option<Output>, w: Disk, s: Session) =>
        (env.finish(p, raw, s).0, env.finish(p, raw, s).1, w),
      env.denied)
  }

  lemma FileToolsEnd<F(!new)>(env: Files<F>)
    ensures Ends(FileTools(env))
  {
  }

  // ----- batches of reads -----

  /** What a read records, told before it runs. */
  function Recorded<F>(env: Files<F>, call: FileCall, nodes: map<string, Node>): Option<ReadState>
    requires !call.WriteFile?
  {
    var l := Open(env, call, nodes);
    if l.Opened? && Content(env, call, nodes).Some? then Some(l.record) else None
  }

  predicate AllowedRead<F>(env: Files<F>, p: Prepared) {
    !p.blocked && p.permissionMode == Allow && !env.decode(p.call).WriteFile?
  }

  ghost predicate ReadCalls<F>(env: Files<F>, calls: seq<Prepared>) {
    forall i :: 0 <= i < |calls| ==> AllowedRead(env, calls[i])
  }

  /** No file is recorded as read in full by one call of the batch and in part by another. */
  ghost predicate NoMixedReads<F>(env: Files<F>, calls: seq<Prepared>, nodes: map<string, Node>)
    requires ReadCalls(env, calls)
  {
    forall i, j :: 0 <= i < |calls| && 0 <= j < |calls| ==> RecordAlike(env, calls[i].call, calls[j].call, nodes)
  }

  predicate RecordAlike<F>(env: Files<F>, a: ToolCall, b: ToolCall, nodes: map<string, Node>)
    requires !env.decode(a).WriteFile? && !env.decode(b).WriteFile?
  {
    var x, y := Recorded(env, env.decode(a), nodes), Recorded(env, env.decode(b), nodes);
    env.decode(a).path == env.decode(b).path && x.Some? && y.Some? ==> x.value.fullFile == y.value.fullFile
  }

  function ReadBatch<F, T>(env: Files<F>, c: Collector<F, T>, calls: seq<Prepared>):
    Batch<Disk, Progress, Output, F, T>
  {
    Batch(FileTools(env), c, calls)
  }

  /** The files are what they were, and a call that has looked at its file has found what there was. */
  ghost predicate Reading<F, T>(
      env: Files<F>, c: Collector<F, T>, calls: seq<Prepared>, nodes: map<string, Node>, r: Running<Progress, T, Disk>)
    requires ReadCalls(env, calls)
  {
    && Fits(ReadBatch(env, c, calls), r) && r.workspace.nodes == nodes
    && forall i :: 0 <= i < |calls| && r.locals[i].Opened? ==>
         r.locals[i] == Open(env, env.decode(calls[i].call), nodes)
  }

  lemma ActKeepsReading<F, T>(
      env: Files<F>, c: Collector<F, T>, calls: seq<Prepared>, nodes: map<string, Node>,
      r: Running<Progress, T, Disk>, a: Action)
    requires ReadCalls(env, calls) && Reading(env, c, calls, nodes, r) && Enabled(ReadBatch(env, c, calls), r, a)
    ensures Reading(env, c, calls, nodes, Act(ReadBatch(env, c, calls), r, a))
  {
  }

  lemma {:induction false} StaysReading<F, T>(
      env: Files<F>, c: Collector<F, T>, calls: seq<Prepared>, nodes: map<string, Node>,
      r: Running<Progress, T, Disk>, schedule: seq<Action>)
    requires ReadCalls(env, calls) && Reading(env, c, calls, nodes, r)
    requires Allowed(ReadBatch(env, c, calls), r, schedule)
    ensures Reading(env, c, calls, nodes, After(ReadBatch(env, c, calls), r, schedule))
    decreases schedule
  {
    if schedule != [] {
      ActKeepsReading(env, c, calls, nodes, r, schedule[0]);
      StaysReading(env, c, calls, nodes, Act(ReadBatch(env, c, calls), r, schedule[0]), schedule[1..]);
    }
  }

  lemma ReadingsCommute<F, T>(
      env: Files<F>, c: Collector<F, T>, calls: seq<Prepared>, nodes: map<string, Node>,
      r: Running<Progress, T, Disk>, i: nat, j: nat)
    requires ReadCalls(env, calls) && NoMixedReads(env, calls, nodes) && Reading(env, c, calls, nodes, r)
    requires i != j && Enabled(ReadBatch(env, c, calls), r, Step(i)) && Enabled(ReadBatch(env, c, calls), r, Step(j))
    ensures var b := ReadBatch(env, c, calls);
            && Enabled(b, Act(b, r, Step(i)), Step(j))
            && Enabled(b, Act(b, r, Step(j)), Step(i))
            && Act(b, Act(b, r, Step(i)), Step(j)) == Act(b, Act(b, r, Step(j)), Step(i))
  {
    var p, q := env.decode(calls[i].call), env.decode(calls[j].call);
    assert RecordAlike(env, calls[i].call, calls[j].call, nodes);
    var x, y := StepFile(env, calls[i], r.locals[i], r.workspace), StepFile(env, calls[j], r.locals[j], r.workspace);
    assert r.locals[i := x.0][j := y.0] == r.locals[j := y.0][i := x.0];
    if r.locals[i].Opened? && r.locals[j].Opened? && p.path != q.path {
      var m := r.workspace.readState;
      assert m[p.path := r.locals[i].record][q.path := r.locals[j].record]
          == m[q.path := r.locals[j].record][p.path := r.locals[i].record];
    }
  }

  lemma ReadingAndFinalizeCommute<F, T>(
      env: Files<F>, c: Collector<F, T>, calls: seq<Prepared>, nodes: map<string, Node>,
      r: Running<Progress, T, Disk>, i: nat)
    requires ReadCalls(env, calls) && Reading(env, c, calls, nodes, r)
    requires Enabled(ReadBatch(env, c, calls), r, Step(i)) && Enabled(ReadBatch(env, c, calls), r, Finalize)
    ensures var b := ReadBatch(env, c, calls);
            && Enabled(b, Act(b, r, Step(i)), Finalize)
            && Enabled(b, Act(b, r, Finalize), Step(i))
            && Act(b, Act(b, r, Step(i)), Finalize) == Act(b, Act(b, r, Finalize), Step(i))
  {
    hide StepFile;
  }

  lemma ReadsCommuteAt<F, T>(
      env: Files<F>, c: Collector<F, T>, calls: seq<Prepared>, nodes: map<string, Node>,
      r: Running<Progress, T, Disk>)
    requires ReadCalls(env, calls) && NoMixedReads(env, calls, nodes) && Reading(env, c, calls, nodes, r)
    ensures CommuteAt(ReadBatch(env, c, calls), r)
  {
    hide NoMixedReads, StepFile;
    var b := ReadBatch(env, c, calls);
    forall a, a' | Enabled(b, r, a) && Enabled(b, r, a') && a != a'
      ensures && Enabled(b, Act(b, r, a), a')
              && Enabled(b, Act(b, r, a'), a)
              && Act(b, Act(b, r, a), a') == Act(b, Act(b, r, a'), a)
    {
      if a.Step? && a'.Step? {
        ReadingsCommute(env, c, calls, nodes, r, a.call, a'.call);
      } else if a.Step? {
        ReadingAndFinalizeCommute(env, c, calls, nodes, r, a.call);
      } else {
        ReadingAndFinalizeCommute(env, c, calls, nodes, r, a'.call);
      }
    }
  }

  lemma UnmixedReadsCommute<F, T>(
      env: Files<F>, c: Collector<F, T>, calls: seq<Prepared>, w: Disk, s: Session)
    requires ReadCalls(env, calls) && NoMixedReads(env, calls, w.nodes)
    ensures Commuting(ReadBatch(env, c, calls), Start(ReadBatch(env, c, calls), w, s))
  {
    var b := ReadBatch(env, c, calls);
    var r := Start(b, w, s);
    forall schedule | Allowed(b, r, schedule) ensures CommuteAt(b, After(b, r, schedule)) {
      StaysReading(env, c, calls, w.nodes, r, schedule);
      ReadsCommuteAt(env, c, calls, w.nodes, After(b, r, schedule));
    }
  }

  // ----- mixed reads show -----

  /** All calls up to `n` have ended, except `i` and `j`: these have looked at their files. */
  ghost predicate AllButTwo<F, T>(
      env: Files<F>, c: Collector<F, T>, calls: seq<Prepared>, nodes: map<string, Node>,
      r: Running<Progress, T, Disk>, i: nat, j: nat, n: nat)
    requires ReadCalls(env, calls)
  {
    && Reading(env, c, calls, nodes, r) && r.results == []
    && (forall k :: 0 <= k < n && k < |calls| ==> if k == i || k == j then r.locals[k].Opened? else r.locals[k].Done?)
    && (forall k :: n <= k < |calls| ==> r.locals[k] == Begin)
  }

  lemma {:induction false} RunAllButTwo<F, T>(
      env: Files<F>, c: Collector<F, T>, calls: seq<Prepared>, w: Disk, s: Session, i: nat, j: nat, n: nat)
      returns (schedule: seq<Action>)
    requires ReadCalls(env, calls) && i < |calls| && j < |calls| && n <= |calls|
    requires Recorded(env, env.decode(calls[i].call), w.nodes).Some?
    requires Recorded(env, env.decode(calls[j].call), w.nodes).Some?
    ensures var b := ReadBatch(env, c, calls);
            && Allowed(b, Start(b, w, s), schedule)
            && AllButTwo(env, c, calls, w.nodes, After(b, Start(b, w, s), schedule), i, j, n)
    decreases n
  {
    var b := ReadBatch(env, c, calls);
    if n == 0 {
      schedule := [];
    } else {
      var k := n - 1;
      var before := RunAllButTwo(env, c, calls, w, s, i, j, k);
      var r := After(b, Start(b, w, s), before);
      var more := OneMore(env, c, calls, w.nodes, r, i, j, k);
      AfterThen(b, Start(b, w, s), before, more);
      schedule := before + more;
    }
  }

  lemma OneMore<F, T>(
      env: Files<F>, c: Collector<F, T>, calls: seq<Prepared>, nodes: map<string, Node>,
      r: Running<Progress, T, Disk>, i: nat, j: nat, k: nat) returns (more: seq<Action>)
    requires ReadCalls(env, calls) && i < |calls| && j < |calls| && k < |calls|
    requires Recorded(env, env.decode(calls[i].call), nodes).Some?
    requires Recorded(env, env.decode(calls[j].call), nodes).Some?
    requires AllButTwo(env, c, calls, nodes, r, i, j, k)
    ensures var b := ReadBatch(env, c, calls);
            && Fits(b, r) && Allowed(b, r, more)
            && AllButTwo(env, c, calls, nodes, After(b, r, more), i, j, k + 1)
  {
    var b := ReadBatch(env, c, calls);
    var next := Act(b, r, Step(k));
    assert next.locals[k] == Open(env, env.decode(calls[k].call), nodes);
    if next.locals[k].Done? || k == i || k == j {
      more := [Step(k)];
      assert Allowed(b, next, more[1..]) && After(b, next, more[1..]) == next;
    } else {
      more := [Step(k), Step(k)];
      var last := Act(b, next, Step(k));
      assert more[1..][0] == Step(k) && more[1..][1..] == [];
      assert Allowed(b, last, []) && After(b, last, []) == last;
      assert Allowed(b, next, more[1..]) && After(b, next, more[1..]) == last;
    }
  }

  /** Finalising leaves the disk alone. */
  lemma {:induction false} FinalizingKeepsDisk<F(!new), T(!new)>(
      env: Files<F>, c: Collector<F, T>, calls: seq<Prepared>, r: Running<Progress, T, Disk>)
    requires Ends(FileTools(env)) && Fits(ReadBatch(env, c, calls), r)
    requires forall k :: 0 <= k < |calls| ==> r.locals[k].Done?
    ensures Completion(ReadBatch(env, c, calls), r).outcome.workspace == r.workspace
    decreases |calls| - |r.results|
  {
    var b := ReadBatch(env, c, calls);
    if |r.results| < |calls| {
      assert Next(b, r) == Finalize;
      FinalizingKeepsDisk(env, c, calls, Act(b, r, Finalize));
    }
  }

  lemma MixedReadsShow<F(!new), T(!new)>(
      env: Files<F>, c: Collector<F, T>, calls: seq<Prepared>, w: Disk, s: Session, i: nat, j: nat)
    requires Ends(FileTools(env)) && ReadCalls(env, calls) && i < |calls| && j < |calls|
    requires var b := ReadBatch(env, c, calls); OrderIgnored(b, Start(b, w, s))
    ensures RecordAlike(env, calls[i].call, calls[j].call, w.nodes)
  {
    hide OrderIgnoredAt, Recorded, AllButTwo;
    var p, q := env.decode(calls[i].call), env.decode(calls[j].call);
    if p.path == q.path && Recorded(env, p, w.nodes).Some? && Recorded(env, q, w.nodes).Some? && i != j {
      var b := ReadBatch(env, c, calls);
      var schedule := RunAllButTwo(env, c, calls, w, s, i, j, |calls|);
      var r := After(b, Start(b, w, s), schedule);
      assert OrderIgnoredAt(b, r);
      LastTwoShow(env, c, calls, w.nodes, r, i, j);
    }
  }

  /** Whichever of the two comes last leaves its record. */
  lemma LastTwoShow<F(!new), T(!new)>(
      env: Files<F>, c: Collector<F, T>, calls: seq<Prepared>, nodes: map<string, Node>,
      r: Running<Progress, T, Disk>, i: nat, j: nat)
    requires Ends(FileTools(env)) && ReadCalls(env, calls) && i < |calls| && j < |calls| && i != j
    requires Fits(ReadBatch(env, c, calls), r) && OrderIgnoredAt(ReadBatch(env, c, calls), r)
    requires AllButTwo(env, c, calls, nodes, r, i, j, |calls|)
    requires env.decode(calls[i].call).path == env.decode(calls[j].call).path
    requires Recorded(env, env.decode(calls[i].call), nodes).Some?
    requires Recorded(env, env.decode(calls[j].call), nodes).Some?
    ensures Recorded(env, env.decode(calls[i].call), nodes) == Recorded(env, env.decode(calls[j].call), nodes)
  {
    hide Recorded, Reading, Act, Enabled, Completion;
    LastReadIsRecorded(env, c, calls, nodes, r, i, j);
    LastReadIsRecorded(env, c, calls, nodes, r, j, i);
  }

  lemma LastReadIsRecorded<F(!new), T(!new)>(
      env: Files<F>, c: Collector<F, T>, calls: seq<Prepared>, nodes: map<string, Node>,
      r: Running<Progress, T, Disk>, i: nat, j: nat)
    requires Ends(FileTools(env)) && ReadCalls(env, calls) && i < |calls| && j < |calls| && i != j
    requires AllButTwo(env, c, calls, nodes, r, i, j, |calls|)
    requires Recorded(env, env.decode(calls[j].call), nodes).Some?
    ensures var b := ReadBatch(env, c, calls);
            var q := env.decode(calls[j].call);
            && Enabled(b, r, Step(i)) && Enabled(b, r, Step(j)) && Enabled(b, Act(b, r, Step(i)), Step(j))
            && var disk := Completion(b, Act(b, Act(b, r, Step(i)), Step(j))).outcome.workspace;
            q.path in disk.readState && disk.readState[q.path] == Recorded(env, q, nodes).value
  {
    var b := ReadBatch(env, c, calls);
    FinalizingKeepsDisk(env, c, calls, Act(b, Act(b, r, Step(i)), Step(j)));
  }

  /** However a batch of reads is interleaved, it gives what one by one gives, exactly if no file is
      recorded both in full and in part. */
  lemma ReadsAgreeExactly<F(!new), T(!new)>(
      env: Files<F>, c: Collector<F, T>, calls: seq<Prepared>, w: Disk, s: Session)
    requires ReadCalls(env, calls)
    ensures Ends(FileTools(env))
    ensures var b := ReadBatch(env, c, calls);
            SchedulesAgree(b, Start(b, w, s)) <==> NoMixedReads(env, calls, w.nodes)
  {
    FileToolsEnd(env);
    var b := ReadBatch(env, c, calls);
    if NoMixedReads(env, calls, w.nodes) {
      UnmixedReadsCommute(env, c, calls, w, s);
      CommutingIgnoresOrder(b, Start(b, w, s));
    }
    if SchedulesAgree(b, Start(b, w, s)) {
      SchedulesAgreeExactly(b, Start(b, w, s));
      forall i, j | 0 <= i < |calls| && 0 <= j < |calls|
        ensures RecordAlike(env, calls[i].call, calls[j].call, w.nodes)
      {
        MixedReadsShow(env, c, calls, w, s, i, j);
      }
    }
  }

  // ----- whole turns -----

  /** In one batch, a file is asked for by line range by all calls that name it, or by none. */
  ghost predicate UnmixedRequests<F>(env: Files<F>, ps: seq<Prepared>) {
    forall i: nat, j: nat :: InOneBatch(ps, i, j) && env.decode(ps[i].call).path == env.decode(ps[j].call).path ==>
      HasRange(env.decode(ps[i].call)) == HasRange(env.decode(ps[j].call))
  }

  /** Only reads that are allowed without asking are parallel-safe. */
  ghost predicate OnlyReadsInParallel<F>(env: Files<F>, ps: seq<Prepared>) {
    forall i :: 0 <= i < |ps| && ps[i].canRunInParallel ==> AllowedRead(env, ps[i])
  }

  lemma {:induction false} ParallelCallsRead<F>(env: Files<F>, calls: seq<ToolCall>, w: Disk, s: Session)
    ensures OnlyReadsInParallel(env, PrepareAll(FileTools(env), calls, w, s).0)
    decreases |calls|
  {
    if calls != [] {
      ParallelCallsRead(env, calls[..|calls| - 1], w, s);
    }
  }

  lemma RequestsDecideRecords<F>(env: Files<F>, calls: seq<Prepared>, nodes: map<string, Node>)
    requires ReadCalls(env, calls)
    requires forall i, j :: 0 <= i < j < |calls| && env.decode(calls[i].call).path == env.decode(calls[j].call).path ==>
               HasRange(env.decode(calls[i].call)) == HasRange(env.decode(calls[j].call))
    ensures NoMixedReads(env, calls, nodes)
  {
    forall i, j | 0 <= i < |calls| && 0 <= j < |calls|
      ensures RecordAlike(env, calls[i].call, calls[j].call, nodes)
    {
      assert i < j || i == j || j < i;
    }
  }

  lemma RestOfRequests<F>(env: Files<F>, ps: seq<Prepared>, n: nat)
    requires UnmixedRequests(env, ps) && n <= |ps|
    ensures UnmixedRequests(env, ps[n..])
  {
    forall i: nat, j: nat | InOneBatch(ps[n..], i, j) ensures InOneBatch(ps, n + i, n + j) {
      forall k | n + i <= k <= n + j ensures ps[k].canRunInParallel {
        assert ps[n..][k - n] == ps[k];
      }
    }
  }

  /** File calls run as one by one if no batch asks for a file both in full and by lines. */
  lemma {:induction false} FileBatchesCommute<F(!new), T(!new)>(
      env: Files<F>, c: Collector<F, T>, ps: seq<Prepared>, w: Disk, s: Session)
    requires Ends(FileTools(env)) && UnmixedRequests(env, ps) && OnlyReadsInParallel(env, ps)
    ensures BatchesCommute(FileTools(env), c, ps, w, s)
    decreases |ps|
  {
    hide HasRange, Commuting, RunOne, NoMixedReads;
    if ps != [] {
      var t := FileTools(env);
      if ps[0].canRunInParallel {
        var n := RunLength(ps);
        var o := OneByOne(t, c, ps[..n], w, s);
        assert forall i, j :: 0 <= i < j < n ==> InOneBatch(ps, i, j);
        RequestsDecideRecords(env, ps[..n], w.nodes);
        UnmixedReadsCommute(env, c, ps[..n], w, s);
        RestOfRequests(env, ps, n);
        FileBatchesCommute(env, c, ps[n..], o.workspace, o.session);
      } else {
        var one := RunOne(t, c, ps[0], w, s);
        RestOfRequests(env, ps, 1);
        FileBatchesCommute(env, c, ps[1..], one.1, one.2);
      }
    }
  }

  /** What the loops ask of a turn of file calls, told by the calls. */
  lemma FileTurnsCommute<F(!new), T(!new)>(
      env: Files<F>, c: Collector<F, T>, calls: seq<ToolCall>, w: Disk, s: Session)
    requires var ps := PrepareAll(FileTools(env), calls, w, s).0; UnmixedRequests(env, ps)
    ensures Ends(FileTools(env))
    ensures var prepared := PrepareAll(FileTools(env), calls, w, s);
            BatchesCommute(FileTools(env), c, prepared.0, prepared.1, prepared.2)
  {
    FileToolsEnd(env);
    ParallelCallsRead(env, calls, w, s);
    var prepared := PrepareAll(FileTools(env), calls, w, s);
    FileBatchesCommute(env, c, prepared.0, prepared.1, prepared.2);
  }

  // ----- where one by one and together differ -----

  /** A text file of moderate size, a read of all of it, a read of some of its lines, and a write. */
  ghost predicate ReadsAndWrite<F>(
      env: Files<F>, path: string, content: string, whole: Prepared, part: Prepared, write: Prepared, w: Disk)
  {
    && path in w.nodes && w.nodes[path].File? && w.nodes[path].size <= MAX_FULL_READ_BYTES
    && env.textual(path, w.nodes[path])
    && env.decode(whole.call) == ReadFile(path, None, None) && env.read(env.decode(whole.call), w.nodes[path]).Some?
    && env.decode(part.call) == ReadFile(path, Some(1), None) && env.read(env.decode(part.call), w.nodes[path]).Some?
    && env.decode(write.call) == WriteFile(path, content) && Granted(env, write) && !write.blocked
    && AllowedRead(env, whole) && AllowedRead(env, part)
  }

  const PART_FIRST := [Step(1), Step(1), Step(0), Step(0), Finalize, Finalize]

  /** The read in full, the read by lines, then the write: one by one the write is refused, but it goes
      through if the read by lines happens to end first. */
  lemma MixedReadsDecideWrite<F(!new), T(!new)>(
      env: Files<F>, c: Collector<F, T>, path: string, content: string,
      whole: Prepared, part: Prepared, write: Prepared, w: Disk, s: Session)
    requires ReadsAndWrite(env, path, content, whole, part, write, w)
    ensures Ends(FileTools(env))
    ensures OneByOne(FileTools(env), c, [whole, part, write], w, s).workspace.nodes == w.nodes
    ensures var b := ReadBatch(env, c, [whole, part]);
            && Allowed(b, Start(b, w, s), PART_FIRST)
            && var end := After(b, Start(b, w, s), PART_FIRST);
            && |end.results| == 2
            && var written := RunOne(FileTools(env), c, write, end.workspace, end.session).1;
            path in written.nodes && written.nodes[path].File? && written.nodes[path].content == content
  {
    FileToolsEnd(env);
    OneByOneRefuses(env, c, path, content, whole, part, write, w, s);
    PartFirstAllows(env, c, path, content, whole, part, write, w, s);
  }

  /** A read on its own, in two steps. */
  lemma ReadAlone<F(!new)>(env: Files<F>, p: Prepared, w: Disk, s: Session)
    requires Ends(FileTools(env)) && AllowedRead(env, p)
    requires Recorded(env, env.decode(p.call), w.nodes).Some?
    ensures var raw := InvokeUnlessBlocked(FileTools(env), p, w, s);
            && raw.1 == w.(readState := w.readState[env.decode(p.call).path
                                                     := Recorded(env, env.decode(p.call), w.nodes).value])
            && raw.2 == s
  {
    var t, call := FileTools(env), env.decode(p.call);
    var found := Open(env, call, w.nodes);
    var read := Read(env, call, found.record, w);
    assert t.step(p, Begin, w, s) == (found, w, s) && t.step(p, found, w, s) == (read.0, read.1, s);
    assert Invoke(t, p, read.0, read.1, s) == (Some(read.0.output), read.1, s);
    assert Invoke(t, p, found, w, s) == Invoke(t, p, read.0, read.1, s);
  }

  /** Why a read fails, in the order in which it is checked: the file, its kind, its size, the lines, the reading. */
  function ReadRefusal<F>(env: Files<F>, call: FileCall, nodes: map<string, Node>): Option<string>
    requires !call.WriteFile?
  {
    if !(call.path in nodes) then Some("File does not exist")
    else
      match nodes[call.path]
      case Directory => Some("Path is a directory, not a file")
      case File(_, size, _) =>
        var lines := call.ReadFile? && env.textual(call.path, nodes[call.path]);
        if lines && call.startLine.None? && call.endLine.None? && size >= 65537 then
          Some("File is too large to read fully")
        else if lines && call.endLine.Some? && LastLine(call) < FirstLine(call) then Some("Invalid line range")
        else if env.read(call, nodes[call.path]).None? then Some("Failed to read file")
        else None
  }

  /** Lines are counted from one. */
  function FirstLine(call: FileCall): int
    requires call.ReadFile?
  {
    match call.startLine
    case None => 1
    case Some(n) => if n > 1 then n else 1
  }

  function LastLine(call: FileCall): int
    requires call.ReadFile? && call.endLine.Some?
  {
    if call.endLine.value > 1 then call.endLine.value else 1
  }

  /** The read is one of some lines of a text, and not of the whole file. */
  predicate ReadsLines<F>(env: Files<F>, call: FileCall, node: Node) {
    call.ReadFile? && env.textual(call.path, node) && (call.startLine.Some? || call.endLine.Some?)
  }

  /** A read on its own: what it gives, and what it records. */
  lemma ReadExactly<F(!new)>(env: Files<F>, p: Prepared, w: Disk, s: Session)
    requires AllowedRead(env, p)
    ensures Ends(FileTools(env))
    ensures var call := env.decode(p.call);
            InvokeUnlessBlocked(FileTools(env), p, w, s)
            == match ReadRefusal(env, call, w.nodes)
               case Some(error) => (Some(Output(false, error)), w, s)
               case None =>
                 var node := w.nodes[call.path];
                 (Some(Output(true, env.read(call, node).value)),
                  w.(readState := w.readState[call.path
                                              := ReadState(!ReadsLines(env, call, node), node.size, node.mtimeMs)]),
                  s)
  {
    FileToolsEnd(env);
    var t, call := FileTools(env), env.decode(p.call);
    var found := Open(env, call, w.nodes);
    assert t.step(p, Begin, w, s) == (found, w, s);
    if found.Opened? {
      var read := Read(env, call, found.record, w);
      assert t.step(p, found, w, s) == (read.0, read.1, s);
      assert Invoke(t, p, read.0, read.1, s) == (Some(read.0.output), read.1, s);
      assert Invoke(t, p, found, w, s) == Invoke(t, p, read.0, read.1, s);
    } else {
      assert Invoke(t, p, found, w, s) == (Some(found.output), w, s);
    }
  }

  /** A write on its own, in one step. */
  lemma WriteAlone<F(!new)>(env: Files<F>, p: Prepared, w: Disk, s: Session)
    requires Ends(FileTools(env)) && !p.blocked && env.decode(p.call).WriteFile?
    ensures InvokeUnlessBlocked(FileTools(env), p, w, s).1 == StepFile(env, p, Begin, w).1
  {
    hide StepFile;
    var t, written := FileTools(env), StepFile(env, p, Begin, w);
    assert t.step(p, Begin, w, s) == (written.0, written.1, s);
    WriteEnds(env, p, w);
    assert Invoke(t, p, written.0, written.1, s) == (Some(written.0.output), written.1, s);
  }

  lemma WriteEnds<F>(env: Files<F>, p: Prepared, w: Disk)
    requires env.decode(p.call).WriteFile?
    ensures StepFile(env, p, Begin, w).0.Done?
  {
  }

  lemma OneByOneRefuses<F(!new), T(!new)>(
      env: Files<F>, c: Collector<F, T>, path: string, content: string,
      whole: Prepared, part: Prepared, write: Prepared, w: Disk, s: Session)
    requires Ends(FileTools(env)) && ReadsAndWrite(env, path, content, whole, part, write, w)
    ensures OneByOne(FileTools(env), c, [whole, part, write], w, s).workspace.nodes == w.nodes
  {
    var t := FileTools(env);
    var one := RunOne(t, c, whole, w, s);
    ReadAlone(env, whole, w, s);
    var two := RunOne(t, c, part, one.1, one.2);
    ReadAlone(env, part, one.1, one.2);
    var three := RunOne(t, c, write, two.1, two.2);
    WriteAlone(env, write, two.1, two.2);
    assert !two.1.readState[path].fullFile;
    hide *;
    ThreeOneByOne(t, c, whole, part, write, w, s);
  }

  lemma ThreeOneByOne<W(!new), L(!new), R(!new), F(!new), T(!new)>(
      t: Tools<W, L, R, F>, c: Collector<F, T>, p: Prepared, q: Prepared, r: Prepared, w: W, s: Session)
    requires Ends(t)
    ensures var one := RunOne(t, c, p, w, s);
            var two := RunOne(t, c, q, one.1, one.2);
            var three := RunOne(t, c, r, two.1, two.2);
            OneByOne(t, c, [p, q, r], w, s).workspace == three.1
  {
    hide RunOne;
    var one := RunOne(t, c, p, w, s);
    var two := RunOne(t, c, q, one.1, one.2);
    var three := RunOne(t, c, r, two.1, two.2);
    assert [p, q, r][1..] == [q, r] && [q, r][1..] == [r] && [r][1..] == [];
    assert OneByOne(t, c, [r], two.1, two.2).workspace == three.1;
    assert OneByOne(t, c, [q, r], one.1, one.2).workspace == three.1;
  }

  lemma PartFirstAllows<F(!new), T(!new)>(
      env: Files<F>, c: Collector<F, T>, path: string, content: string,
      whole: Prepared, part: Prepared, write: Prepared, w: Disk, s: Session)
    requires Ends(FileTools(env)) && ReadsAndWrite(env, path, content, whole, part, write, w)
    ensures var b := ReadBatch(env, c, [whole, part]);
            && Allowed(b, Start(b, w, s), PART_FIRST)
            && var end := After(b, Start(b, w, s), PART_FIRST);
            && |end.results| == 2
            && var written := RunOne(FileTools(env), c, write, end.workspace, end.session).1;
            path in written.nodes && written.nodes[path].File? && written.nodes[path].content == content
  {
    var b := ReadBatch(env, c, [whole, part]);
    var read := PartFirst(env, c, path, content, whole, part, write, w, s);
    var r5 := Act(b, read, Finalize);
    var end := Act(b, r5, Finalize);
    assert end.workspace == read.workspace;
    WriteAlone(env, write, end.workspace, end.session);
    hide FileTools;
    Follow(b, r5, Finalize, []);
    Follow(b, read, Finalize, [Finalize]);
    AfterThen(b, Start(b, w, s), PART_FIRST[..4], [Finalize, Finalize]);
    assert PART_FIRST == PART_FIRST[..4] + [Finalize, Finalize];
  }

  lemma PartFirst<F(!new), T(!new)>(
      env: Files<F>, c: Collector<F, T>, path: string, content: string,
      whole: Prepared, part: Prepared, write: Prepared, w: Disk, s: Session) returns (read: Running<Progress, T, Disk>)
    requires ReadsAndWrite(env, path, content, whole, part, write, w)
    ensures var b := ReadBatch(env, c, [whole, part]);
            && Allowed(b, Start(b, w, s), PART_FIRST[..4])
            && read == After(b, Start(b, w, s), PART_FIRST[..4])
            && read.results == [] && read.locals[0].Done? && read.locals[1].Done?
            && MayOverwrite(read.workspace, path) && read.workspace.nodes == w.nodes
  {
    var b := ReadBatch(env, c, [whole, part]);
    var r := Start(b, w, s);
    var r1 := Act(b, r, Step(1));
    var r2 := Act(b, r1, Step(1));
    var r3 := Act(b, r2, Step(0));
    read := Act(b, r3, Step(0));
    hide FileTools;
    Follow(b, r3, Step(0), []);
    Follow(b, r2, Step(0), [Step(0)]);
    Follow(b, r1, Step(1), [Step(0), Step(0)]);
    Follow(b, r, Step(1), [Step(1), Step(0), Step(0)]);
    assert PART_FIRST[..4] == [Step(1), Step(1), Step(0), Step(0)];
  }

  // ----- permissions are decided first -----

  /** The rules let the write go ahead, given whether its file counts as read. */
  predicate Grants<F>(env: Files<F>, write: ToolCall, hasPriorRead: bool) {
    var mode := env.policy(write, hasPriorRead);
    mode == Allow || (mode == Ask && env.approves(write))
  }

  /** A text file of moderate size that has not been read yet, a read of all of it, and a write. */
  ghost predicate ReadThenWrite<F>(
      env: Files<F>, path: string, content: string, read: ToolCall, write: ToolCall, w: Disk)
  {
    && path in w.nodes && w.nodes[path].File? && w.nodes[path].size <= MAX_FULL_READ_BYTES
    && env.textual(path, w.nodes[path]) && path !in w.readState
    && env.decode(read) == ReadFile(path, None, None) && env.read(env.decode(read), w.nodes[path]).Some?
    && env.decode(write) == WriteFile(path, content)
    && env.policy(read, true) == Allow
  }

  function RecordRead<F>(env: Files<F>, read: FileCall, w: Disk): Disk
    requires !read.WriteFile? && Recorded(env, read, w.nodes).Some?
  {
    w.(readState := w.readState[read.path := Recorded(env, read, w.nodes).value])
  }

  /** A read, then a write of the same file: the write goes by whether the file counted as read before the
      turn if all calls are prepared first, and by the read in front of it if each is prepared in its turn. */
  lemma PreparingFirstDecidesWrite<F(!new), T(!new)>(
      env: Files<F>, c: Collector<F, T>, path: string, content: string,
      read: ToolCall, write: ToolCall, w: Disk, s: Session)
    requires ReadThenWrite(env, path, content, read, write, w)
    ensures Ends(FileTools(env))
    ensures Recorded(env, env.decode(read), w.nodes).Some?
    ensures var t, after := FileTools(env), RecordRead(env, env.decode(read), w);
            var written := Write(env, path, content, after).1;
            && PreparedFirst(t, c, [read, write], w, s).workspace
               == (if Grants(env, write, false) then written else after)
            && CallByCall(t, c, [read, write], w, s).workspace
               == (if Grants(env, write, true) then written else after)
            && path in written.nodes && written.nodes[path].File? && written.nodes[path].content == content
  {
    FileToolsEnd(env);
    var t := FileTools(env);
    var p, early := PrepareFile(env, read, w), PrepareFile(env, write, w);
    var one := RunOne(t, c, p, w, s);
    ReadAlone(env, p, w, s);
    var late := PrepareFile(env, write, one.1);
    RunWrite(env, early, one.1, one.2);
    RunWrite(env, late, one.1, one.2);
    hide FileTools, RunOne, Recorded;
    TwoPrepared(t, c, read, write, w, s);
  }

  /** An existing file is overwritten only if it is a file that was read in full, and still has the size and, to a
      millisecond, the time it had then; a new file is just written.  A write that is not granted, or blocked, or
      that finds another file, leaves everything as it is. */
  lemma WriteExactly<F(!new)>(env: Files<F>, p: Prepared, path: string, content: string, w: Disk, s: Session)
    requires env.decode(p.call) == WriteFile(path, content) && p.blocked == (p.permissionMode == Deny)
    ensures Ends(FileTools(env))
    ensures var granted := p.permissionMode == Allow || (p.permissionMode == Ask && env.approves(p.call));
            var current := && path in w.nodes && w.nodes[path].File? && path in w.readState
                           && w.readState[path].fullFile && w.readState[path].size == w.nodes[path].size
                           && w.nodes[path].mtimeMs <= w.readState[path].mtimeMs + 1.0
                           && w.readState[path].mtimeMs <= w.nodes[path].mtimeMs + 1.0;
            var stamp := env.stamp(content, w);
            InvokeUnlessBlocked(FileTools(env), p, w, s)
            == if p.blocked then (None, w, s)
               else if !granted then (Some(Output(false, "Tool approval denied")), w, s)
               else if path in w.nodes && !current then
                 (Some(Output(false, "Existing file must be read fully")), w, s)
               else
                 (Some(Output(true, "File written successfully")),
                  Disk(w.nodes[path := File(content, stamp.0, stamp.1)],
                       w.readState[path := ReadState(true, stamp.0, stamp.1)]),
                  s)
  {
    FileToolsEnd(env);
    var t, written := FileTools(env), StepFile(env, p, Begin, w);
    if !p.blocked {
      WriteEnds(env, p, w);
      assert t.step(p, Begin, w, s) == (written.0, written.1, s);
      assert Invoke(t, p, written.0, written.1, s) == (Some(written.0.output), written.1, s);
    }
  }

  lemma RunWrite<F(!new)>(env: Files<F>, p: Prepared, w: Disk, s: Session)
    requires Ends(FileTools(env)) && env.decode(p.call).WriteFile? && p.blocked == (p.permissionMode == Deny)
    ensures var write := env.decode(p.call);
            InvokeUnlessBlocked(FileTools(env), p, w, s).1
            == if Granted(env, p) then Write(env, write.path, write.content, w).1 else w
  {
    if !p.blocked {
      WriteAlone(env, p, w, s);
    }
  }

  lemma TwoPrepared<W(!new), L(!new), R(!new), F(!new), T(!new)>(
      t: Tools<W, L, R, F>, c: Collector<F, T>, a: ToolCall, b: ToolCall, w: W, s: Session)
    requires Ends(t)
    ensures var p := t.prepare(a, w, s);
            var early := t.prepare(b, p.1, p.2);
            var one := RunOne(t, c, p.0, early.1, early.2);
            PreparedFirst(t, c, [a, b], w, s).workspace == RunOne(t, c, early.0, one.1, one.2).1
    ensures var p := t.prepare(a, w, s);
            var one := RunOne(t, c, p.0, p.1, p.2);
            var late := t.prepare(b, one.1, one.2);
            CallByCall(t, c, [a, b], w, s).workspace == RunOne(t, c, late.0, late.1, late.2).1
  {
    hide RunOne;
    PrepareAllFrom(t, [a, b], w, s);
    var p := t.prepare(a, w, s);
    PrepareAllFrom(t, [b], p.1, p.2);
    var early := t.prepare(b, p.1, p.2);
    assert [a, b][1..] == [b] && [b][1..] == [];
    assert PrepareAll(t, [], early.1, early.2) == ([], early.1, early.2) && [early.0] + [] == [early.0];
    assert PrepareAll(t, [b], p.1, p.2) == ([early.0], early.1, early.2);
    assert [p.0] + [early.0] == [p.0, early.0];
    assert PrepareAll(t, [a, b], w, s) == ([p.0, early.0], early.1, early.2);
    assert [p.0, early.0][1..] == [early.0] && [early.0][1..] == [];
    var one := RunOne(t, c, p.0, early.1, early.2);
    assert OneByOne(t, c, [early.0], one.1, one.2).workspace == RunOne(t, c, early.0, one.1, one.2).1;
    var first := RunOne(t, c, p.0, p.1, p.2);
    var late := t.prepare(b, first.1, first.2);
    assert CallByCall(t, c, [b], first.1, first.2).workspace == RunOne(t, c, late.0, late.1, late.2).1;
  }

  /** A file that a call does not name stays as it is, and so does its record. */
  predicate AgreeOn(w: Disk, w': Disk, path: string) {
    && (path in w.nodes <==> path in w'.nodes)
    && (path in w.readState <==> path in w'.readState)
    && (path in w.nodes ==> w.nodes[path] == w'.nodes[path])
    && (path in w.readState ==> w.readState[path] == w'.readState[path])
  }

  lemma {:induction false} InvokeTouchesItsFile<F(!new)>(
      env: Files<F>, p: Prepared, l: Progress, w: Disk, s: Session, path: string)
    requires Ends(FileTools(env)) && path != env.decode(p.call).path
    ensures AgreeOn(w, Invoke(FileTools(env), p, l, w, s).1, path)
    decreases if l.Begin? then 2 else if l.Opened? then 1 else 0
  {
    if !l.Done? {
      var next := StepFile(env, p, l, w);
      assert FileTools(env).step(p, l, w, s) == (next.0, next.1, s);
      InvokeTouchesItsFile(env, p, next.0, next.1, s, path);
    }
  }

  /** No call of the turn writes a file that an earlier one names. */
  ghost predicate WritesNameNewFiles<F>(env: Files<F>, calls: seq<ToolCall>) {
    forall i, j :: 0 <= i < j < |calls| && env.decode(calls[j]).WriteFile? ==>
      env.decode(calls[i]).path != env.decode(calls[j]).path
  }

  /** Then it makes no difference that all calls are prepared first. */
  lemma NewFilesPrepareFirst<F(!new), T(!new)>(
      env: Files<F>, c: Collector<F, T>, calls: seq<ToolCall>, w: Disk, s: Session)
    requires WritesNameNewFiles(env, calls)
    ensures Ends(FileTools(env))
    ensures PreparedFirst(FileTools(env), c, calls, w, s) == CallByCall(FileTools(env), c, calls, w, s)
  {
    FileToolsEnd(env);
    var t := FileTools(env);
    forall i, j, w', s' | 0 <= i < j < |calls|
      ensures PrepareCommutes(t, c, t.prepare(calls[i], w', s').0, calls[j])
    {
      var p := PrepareFile(env, calls[i], w');
      forall w, s ensures PrepareCommutesIn(t, c, p, calls[j], w, s) {
        PermissionStays(env, c, p, calls[j], w, s);
      }
    }
    PreparingFirstIsCallByCall(t, c, calls, w, s);
  }

  lemma PermissionStays<F(!new), T(!new)>(
      env: Files<F>, c: Collector<F, T>, p: Prepared, call: ToolCall, w: Disk, s: Session)
    requires Ends(FileTools(env))
    requires env.decode(call).WriteFile? ==> env.decode(p.call).path != env.decode(call).path
    ensures PrepareCommutesIn(FileTools(env), c, p, call, w, s)
  {
    if env.decode(call).WriteFile? && !p.blocked {
      InvokeTouchesItsFile(env, p, Begin, w, s, env.decode(call).path);
    }
    hide Invoke;
    assert PrepareFile(env, call, RunOne(FileTools(env), c, p, w, s).1) == PrepareFile(env, call, w);
  }
}
