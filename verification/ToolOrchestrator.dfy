/**
 The loops that run the tool calls of a turn (src/application/chat/tool-orchestrator.ts and
 src/core/agent/agent-tool-execution.ts): all calls are prepared, every maximal run of parallel-safe
 calls is invoked concurrently, and calls are finalised in order.
 */
module ToolOrchestrator {
  import opened Options
  import opened ToolScheduling
  import opened ToolInterleaving

  // ----- what is asked of the batches -----

  /** How many calls from the first on are parallel-safe. */
  function RunLength(ps: seq<Prepared>): (n: nat)
    ensures n <= |ps|
    ensures forall i :: 0 <= i < n ==> ps[i].canRunInParallel
    ensures n < |ps| ==> !ps[n].canRunInParallel
  {
    if ps != [] && ps[0].canRunInParallel then 1 + RunLength(ps[1..]) else 0
  }

  /** In the state in which it starts, each batch has actions that commute. */
  ghost predicate BatchesCommute<W(!new), L(!new), R(!new), F(!new), T(!new)>(
      t: Tools<W, L, R, F>, c: Collector<F, T>, ps: seq<Prepared>, w: W, s: Session)
    requires Ends(t)
    decreases |ps|
  {
    if ps == [] then true
    else if ps[0].canRunInParallel then
      var n := RunLength(ps);
      var batch := Batch(t, c, ps[..n]);
      var o := OneByOne(t, c, ps[..n], w, s);
      Commuting(batch, Start(batch, w, s)) && BatchesCommute(t, c, ps[n..], o.workspace, o.session)
    else
      var one := RunOne(t, c, ps[0], w, s);
      BatchesCommute(t, c, ps[1..], one.1, one.2)
  }

  /** Two parallel-safe calls with nothing but parallel-safe calls between them. */
  predicate InOneBatch(ps: seq<Prepared>, i: nat, j: nat) {
    i < j < |ps| && forall k :: i <= k <= j ==> ps[k].canRunInParallel
  }

  /** What can be asked call by call and pair by pair; only pairs of one batch matter. */
  ghost predicate BatchPairsCommute<W(!new), L(!new), R(!new), F(!new)>(t: Tools<W, L, R, F>, ps: seq<Prepared>) {
    && (forall i :: 0 <= i < |ps| && ps[i].canRunInParallel && !ps[i].blocked ==> IgnoresSession(t, ps[i]))
    && (forall i: nat, j: nat :: InOneBatch(ps, i, j) && !ps[j].blocked ==>
          (ps[i].blocked || StepsCommute(t, ps[i], ps[j])) && FinalizeCommutes(t, ps[i], ps[j]))
  }

  lemma RestOfBatches<W(!new), L(!new), R(!new), F(!new)>(t: Tools<W, L, R, F>, ps: seq<Prepared>, n: nat)
    requires BatchPairsCommute(t, ps) && n <= |ps|
    ensures BatchPairsCommute(t, ps[n..])
  {
    hide IgnoresSession, StepsCommute, FinalizeCommutes;
    forall i: nat, j: nat | InOneBatch(ps[n..], i, j) ensures InOneBatch(ps, n + i, n + j) {
      forall k | n + i <= k <= n + j ensures ps[k].canRunInParallel {
        assert ps[n..][k - n] == ps[k];
      }
    }
  }

  /** Whatever the state: calls whose pairs commute make batches whose actions commute. */
  lemma {:induction false} PairsMakeBatches<W(!new), L(!new), R(!new), F(!new), T(!new)>(
      t: Tools<W, L, R, F>, c: Collector<F, T>, ps: seq<Prepared>, w: W, s: Session)
    requires Ends(t) && BatchPairsCommute(t, ps)
    ensures BatchesCommute(t, c, ps, w, s)
    decreases |ps|
  {
    hide IgnoresSession, StepsCommute, FinalizeCommutes, Commuting;
    if ps != [] {
      if ps[0].canRunInParallel {
        var n := RunLength(ps);
        var batch := Batch(t, c, ps[..n]);
        var o := OneByOne(t, c, ps[..n], w, s);
        assert forall i, j :: 0 <= i < j < n ==> InOneBatch(ps, i, j);
        PairsDecide(batch, Start(batch, w, s));
        RestOfBatches(t, ps, n);
        PairsMakeBatches(t, c, ps[n..], o.workspace, o.session);
      } else {
        var one := RunOne(t, c, ps[0], w, s);
        RestOfBatches(t, ps, 1);
        PairsMakeBatches(t, c, ps[1..], one.1, one.2);
      }
    }
  }

  /** Calls that only read, and do not read what finalising another call of their batch writes. */
  lemma ReadOnlyBatches<W(!new), L(!new), R(!new), F(!new)>(t: Tools<W, L, R, F>, ps: seq<Prepared>)
    requires forall i :: 0 <= i < |ps| && ps[i].canRunInParallel && !ps[i].blocked ==>
               IgnoresSession(t, ps[i]) && OnlyReads(t, ps[i])
    requires forall i: nat, j: nat :: InOneBatch(ps, i, j) && !ps[j].blocked ==> FinalizeUnseen(t, ps[i], ps[j])
    ensures BatchPairsCommute(t, ps)
  {
    hide IgnoresSession, StepsCommute, FinalizeCommutes, OnlyReads, FinalizeUnseen;
    forall i: nat, j: nat | InOneBatch(ps, i, j) && !ps[j].blocked
      ensures (ps[i].blocked || StepsCommute(t, ps[i], ps[j])) && FinalizeCommutes(t, ps[i], ps[j])
    {
      assert ps[i].canRunInParallel && ps[j].canRunInParallel;
      ReadOnlyPairsCommute(t, [ps[i], ps[j]]);
      assert [ps[i], ps[j]][0] == ps[i] && [ps[i], ps[j]][1] == ps[j];
    }
  }

  // ----- one by one, in parts -----

  lemma {:induction false} OneByOneAppend<W(!new), L(!new), R(!new), F(!new), T(!new)>(
      t: Tools<W, L, R, F>, c: Collector<F, T>, ps: seq<Prepared>, qs: seq<Prepared>, w: W, s: Session)
    requires Ends(t)
    ensures var first := OneByOne(t, c, ps, w, s);
            var second := OneByOne(t, c, qs, first.workspace, first.session);
            OneByOne(t, c, ps + qs, w, s) == second.(results := first.results + second.results)
    decreases ps
  {
    hide RunOne;
    if ps == [] {
      assert ps + qs == qs;
    } else {
      var one := RunOne(t, c, ps[0], w, s);
      OneByOneAppend(t, c, ps[1..], qs, one.1, one.2);
      assert (ps + qs)[1..] == ps[1..] + qs;
      var first := OneByOne(t, c, ps[1..], one.1, one.2);
      var second := OneByOne(t, c, qs, first.workspace, first.session);
      var whole := OneByOne(t, c, ps[1..] + qs, one.1, one.2);
      assert OneByOne(t, c, ps + qs, w, s) == whole.(results := [one.0] + whole.results);
      Join([one.0], first.results, second.results);
    }
  }

  lemma Join<T>(a: seq<T>, b: seq<T>, c: seq<T>)
    ensures a + (b + c) == a + b + c
  {
  }

  /** After `results`, the calls in `rest` still have to run. */
  ghost predicate OnTrack<W(!new), L(!new), R(!new), F(!new), T(!new)>(
      t: Tools<W, L, R, F>, c: Collector<F, T>, whole: Outcome<T, W>,
      results: seq<T>, rest: seq<Prepared>, w: W, s: Session)
    requires Ends(t)
  {
    var o := OneByOne(t, c, rest, w, s);
    whole == o.(results := results + o.results) && BatchesCommute(t, c, rest, w, s)
  }

  lemma OnTrackStart<W(!new), L(!new), R(!new), F(!new), T(!new)>(
      t: Tools<W, L, R, F>, c: Collector<F, T>, ps: seq<Prepared>, w: W, s: Session)
    requires Ends(t) && BatchesCommute(t, c, ps, w, s)
    ensures OnTrack(t, c, OneByOne(t, c, ps, w, s), [], ps[0..], w, s)
  {
    assert ps[0..] == ps;
  }

  lemma OnTrackEnd<W(!new), L(!new), R(!new), F(!new), T(!new)>(
      t: Tools<W, L, R, F>, c: Collector<F, T>, whole: Outcome<T, W>, results: seq<T>, w: W, s: Session)
    requires Ends(t) && OnTrack(t, c, whole, results, [], w, s)
    ensures whole == Outcome(results, w, s)
  {
  }

  lemma OnTrackNext<W(!new), L(!new), R(!new), F(!new), T(!new)>(
      t: Tools<W, L, R, F>, c: Collector<F, T>, whole: Outcome<T, W>,
      results: seq<T>, rest: seq<Prepared>, w: W, s: Session)
    requires Ends(t) && rest != [] && !rest[0].canRunInParallel && OnTrack(t, c, whole, results, rest, w, s)
    ensures var one := RunOne(t, c, rest[0], w, s);
            OnTrack(t, c, whole, results + [one.0], rest[1..], one.1, one.2)
  {
    var one := RunOne(t, c, rest[0], w, s);
    var o := OneByOne(t, c, rest[1..], one.1, one.2);
    Join(results, [one.0], o.results);
  }

  lemma OnTrackBatch<W(!new), L(!new), R(!new), F(!new), T(!new)>(
      t: Tools<W, L, R, F>, c: Collector<F, T>, whole: Outcome<T, W>,
      results: seq<T>, rest: seq<Prepared>, n: nat, w: W, s: Session)
    requires Ends(t) && n == RunLength(rest) && n > 0 && OnTrack(t, c, whole, results, rest, w, s)
    ensures var o := OneByOne(t, c, rest[..n], w, s);
            OnTrack(t, c, whole, results + o.results, rest[n..], o.workspace, o.session)
    ensures Commuting(Batch(t, c, rest[..n]), Start(Batch(t, c, rest[..n]), w, s))
  {
    assert rest == rest[..n] + rest[n..];
    OneByOneAppend(t, c, rest[..n], rest[n..], w, s);
    var o := OneByOne(t, c, rest[..n], w, s);
    var after := OneByOne(t, c, rest[n..], o.workspace, o.session);
    Join(results, o.results, after.results);
  }

  lemma {:induction false} RunLengthIs(ps: seq<Prepared>, n: nat)
    requires n <= |ps| && (forall i :: 0 <= i < n ==> ps[i].canRunInParallel)
    requires n < |ps| ==> !ps[n].canRunInParallel
    ensures RunLength(ps) == n
  {
    if n > 0 {
      RunLengthIs(ps[1..], n - 1);
    }
  }

  // ----- the loops -----

  /** Prepare all, invoke in batches, finalise in order: the prepared calls run as one by one. */
  method RunToolOrchestrator<W(!new), L(!new), R(!new), F(!new)>(
      t: Tools<W, L, R, F>, calls: seq<ToolCall>, w0: W, s0: Session)
      returns (results: seq<ToolExecutionResult>, w: W, s: Session)
    requires Ends(t)
    requires var prepared := PrepareAll(t, calls, w0, s0);
             BatchesCommute(t, Orchestrator(t), prepared.0, prepared.1, prepared.2)
    ensures var prepared := PrepareAll(t, calls, w0, s0);
            Outcome(results, w, s) == OneByOne(t, Orchestrator(t), prepared.0, prepared.1, prepared.2)
  {
    var ps;
    ps, w, s := Prepare(t, calls, w0, s0);
    results, w, s := RunPrepared(t, Orchestrator(t), ps, w, s);
  }

  method ExecuteAgentToolCalls<W(!new), L(!new), R(!new), F(!new)>(
      t: Tools<W, L, R, F>, calls: seq<ToolCall>, w0: W, s0: Session)
      returns (results: seq<F>, w: W, s: Session)
    requires Ends(t)
    requires var prepared := PrepareAll(t, calls, w0, s0);
             BatchesCommute(t, AgentLoop(), prepared.0, prepared.1, prepared.2)
    ensures var prepared := PrepareAll(t, calls, w0, s0);
            Outcome(results, w, s) == OneByOne(t, AgentLoop(), prepared.0, prepared.1, prepared.2)
  {
    var ps;
    ps, w, s := Prepare(t, calls, w0, s0);
    results, w, s := RunPrepared(t, AgentLoop(), ps, w, s);
  }

  /** The calls are prepared in order, each in the workspace that the one before it left. */
  method Prepare<W(!new), L(!new), R(!new), F(!new)>(
      t: Tools<W, L, R, F>, calls: seq<ToolCall>, w0: W, s0: Session)
      returns (ps: seq<Prepared>, w: W, s: Session)
    ensures (ps, w, s) == PrepareAll(t, calls, w0, s0)
    ensures |ps| == |calls|
  {
    ps, w, s := [], w0, s0;
    assert calls[..0] == [];
    for i := 0 to |calls|
      invariant (ps, w, s) == PrepareAll(t, calls[..i], w0, s0) && |ps| == i
    {
      assert calls[..i + 1][..i] == calls[..i] && calls[..i + 1][i] == calls[i];
      var next := t.prepare(calls[i], w, s);
      ps, w, s := ps + [next.0], next.1, next.2;
    }
    assert calls[..|calls|] == calls;
  }

  method RunPrepared<W(!new), L(!new), R(!new), F(!new), T(!new)>(
      t: Tools<W, L, R, F>, c: Collector<F, T>, ps: seq<Prepared>, w0: W, s0: Session)
      returns (results: seq<T>, w: W, s: Session)
    requires Ends(t) && BatchesCommute(t, c, ps, w0, s0)
    ensures Outcome(results, w, s) == OneByOne(t, c, ps, w0, s0)
  {
    hide OnTrack, OneByOne, BatchesCommute, RunOne, RunLength, Commuting, Start;
    results, w, s := [], w0, s0;
    ghost var whole := OneByOne(t, c, ps, w0, s0);
    var index := 0;
    OnTrackStart(t, c, ps, w0, s0);
    while index < |ps|
      invariant 0 <= index <= |ps|
      invariant OnTrack(t, c, whole, results, ps[index..], w, s)
    {
      if ps[index].canRunInParallel {
        var end := EndOfRun(ps, index);
        RunLengthIs(ps[index..], end - index);
        assert ps[index..][..end - index] == ps[index..end] && ps[index..][end - index..] == ps[end..];
        OnTrackBatch(t, c, whole, results, ps[index..], end - index, w, s);
        var batch;
        batch, w, s := RunBatch(Batch(t, c, ps[index..end]), w, s);
        results := results + batch;
        index := end;
      } else {
        OnTrackNext(t, c, whole, results, ps[index..], w, s);
        assert ps[index..][0] == ps[index] && ps[index..][1..] == ps[index + 1..];
        var result;
        result, w, s := InvokeAndFinalize(t, c, ps[index], w, s);
        results := results + [result];
        index := index + 1;
      }
    }
    assert ps[index..] == [];
    OnTrackEnd(t, c, whole, results, w, s);
  }

  /** The end of the maximal run of parallel-safe calls that begins at `index`. */
  method EndOfRun(ps: seq<Prepared>, index: nat) returns (end: nat)
    requires index < |ps| && ps[index].canRunInParallel
    ensures index < end <= |ps| && (forall k :: index <= k < end ==> ps[k].canRunInParallel)
    ensures end < |ps| ==> !ps[end].canRunInParallel
  {
    end := index;
    while end < |ps| && ps[end].canRunInParallel
      invariant index <= end <= |ps|
      invariant forall k :: index <= k < end ==> ps[k].canRunInParallel
    {
      end := end + 1;
    }
  }

  method InvokeAndFinalize<W(!new), L(!new), R(!new), F(!new), T(!new)>(
      t: Tools<W, L, R, F>, c: Collector<F, T>, p: Prepared, w0: W, s0: Session)
      returns (result: T, w: W, s: Session)
    requires Ends(t)
    ensures (result, w, s) == RunOne(t, c, p, w0, s0)
  {
    var raw: Option<R> := None;
    w, s := w0, s0;
    if !p.blocked {
      raw, w, s := InvokePrepared(t, p, w0, s0);
    }
    var final := t.finalize(p, raw, w, s);
    var collected := c(p, s0, final.0, final.1);
    result, w, s := collected.0, final.2, collected.1;
  }

  /** One invocation, step by step. */
  method InvokePrepared<W(!new), L(!new), R(!new), F(!new)>(
      t: Tools<W, L, R, F>, p: Prepared, w0: W, s0: Session)
      returns (raw: Option<R>, w: W, s: Session)
    requires Ends(t)
    ensures (raw, w, s) == Invoke(t, p, t.start(p), w0, s0)
  {
    var l := t.start(p);
    w, s := w0, s0;
    while t.result(l).None?
      invariant Invoke(t, p, l, w, s) == Invoke(t, p, t.start(p), w0, s0)
      decreases t.remaining(p, l, w, s)
    {
      var next := t.step(p, l, w, s);
      l, w, s := next.0, next.1, next.2;
    }
    raw := t.result(l).value;
  }

  /** Invoke a run of parallel-safe calls, then finalise them in order, each from its own snapshot. */
  method RunBatch<W(!new), L(!new), R(!new), F(!new), T(!new)>(
      b: Batch<W, L, R, F, T>, w0: W, s0: Session)
      returns (results: seq<T>, w: W, s: Session)
    requires Ends(b.tools) && Commuting(b, Start(b, w0, s0))
    ensures Outcome(results, w, s) == OneByOne(b.tools, b.collect, b.calls, w0, s0)
  {
    CommutingIsOneByOne(b, w0, s0);
    var locals;
    locals, w, s := InvokeBatch(b, w0, s0);
    results := [];
    while |results| < |b.calls|
      invariant |locals| == |b.calls| && |results| <= |b.calls|
      invariant AllFinished(b, locals)
      invariant Completion(b, Running(locals, results, w, s)).outcome == Completion(b, Start(b, w0, s0)).outcome
    {
      ghost var r := Running(locals, results, w, s);
      var p := b.calls[|results|];
      var final := b.tools.finalize(p, RawResult(b.tools, p, locals[|results|]), w, s);
      var collected := b.collect(p, s, final.0, final.1);
      results, w, s := results + [collected.0], final.2, collected.1;
      assert Running(locals, results, w, s) == Act(b, r, Finalize) && Next(b, r) == Finalize;
    }
  }

  predicate AllFinished<W, L, R, F, T>(b: Batch<W, L, R, F, T>, locals: seq<L>)
    requires |locals| == |b.calls|
  {
    forall i :: 0 <= i < |b.calls| ==> Finished(b.tools, b.calls[i], locals[i])
  }

  /** Steps of the invocations happen in any order until all have ended. */
  method InvokeBatch<W(!new), L(!new), R(!new), F(!new), T(!new)>(
      b: Batch<W, L, R, F, T>, w0: W, s0: Session) returns (locals: seq<L>, w: W, s: Session)
    requires Ends(b.tools) && Commuting(b, Start(b, w0, s0))
    ensures |locals| == |b.calls| && AllFinished(b, locals) && s == s0
    ensures Completion(b, Running(locals, [], w, s)).outcome == Completion(b, Start(b, w0, s0)).outcome
  {
    w, s := w0, s0;
    locals := seq(|b.calls|, i requires 0 <= i < |b.calls| => b.tools.start(b.calls[i]));
    while exists i :: 0 <= i < |b.calls| && !Finished(b.tools, b.calls[i], locals[i])
      invariant |locals| == |b.calls| && s == s0
      invariant Commuting(b, Running(locals, [], w, s))
      invariant Completion(b, Running(locals, [], w, s)).outcome == Completion(b, Start(b, w0, s0)).outcome
      decreases Completion(b, Running(locals, [], w, s)).actions
    {
      var i :| 0 <= i < |b.calls| && !Finished(b.tools, b.calls[i], locals[i]);
      ghost var r: Running<L, T, W> := Running(locals, [], w, s);
      CommutingIgnoresOrder(b, r);
      AnyActionFirst(b, r, Step(i));
      StaysCommuting(b, r, Step(i));
      var next := b.tools.step(b.calls[i], locals[i], w, s);
      locals, w, s := locals[i := next.0], next.1, next.2;
    }
  }
}
