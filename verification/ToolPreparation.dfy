/**
 All calls of a turn are prepared before the first of them is invoked
 (src/application/chat/tool-orchestrator.ts, src/core/agent/agent-tool-execution.ts), so a permission
 is decided before the calls in front have run.  Here is told what that leaves alone.
 */
module ToolPreparation {
  import opened Options
  import opened ToolScheduling

  /** Each call is prepared when the one before it has been finalised. */
  ghost function CallByCall<W(!new), L(!new), R(!new), F(!new), T(!new)>(
      t: Tools<W, L, R, F>, c: Collector<F, T>, calls: seq<ToolCall>, w: W, s: Session): Outcome<T, W>
    requires Ends(t)
    decreases calls
  {
    if calls == [] then Outcome([], w, s)
    else
      var prepared := t.prepare(calls[0], w, s);
      var one := RunOne(t, c, prepared.0, prepared.1, prepared.2);
      var rest := CallByCall(t, c, calls[1..], one.1, one.2);
      rest.(results := [one.0] + rest.results)
  }

  ghost function PreparedFirst<W(!new), L(!new), R(!new), F(!new), T(!new)>(
      t: Tools<W, L, R, F>, c: Collector<F, T>, calls: seq<ToolCall>, w: W, s: Session): Outcome<T, W>
    requires Ends(t)
  {
    var prepared := PrepareAll(t, calls, w, s);
    OneByOne(t, c, prepared.0, prepared.1, prepared.2)
  }

  /** `call` may be prepared before or after `p` is run. */
  ghost predicate PrepareCommutes<W(!new), L(!new), R(!new), F(!new), T(!new)>(
      t: Tools<W, L, R, F>, c: Collector<F, T>, p: Prepared, call: ToolCall)
    requires Ends(t)
  {
    forall w, s :: PrepareCommutesIn(t, c, p, call, w, s)
  }

  ghost predicate PrepareCommutesIn<W(!new), L(!new), R(!new), F(!new), T(!new)>(
      t: Tools<W, L, R, F>, c: Collector<F, T>, p: Prepared, call: ToolCall, w: W, s: Session)
    requires Ends(t)
  {
    var one, early := RunOne(t, c, p, w, s), t.prepare(call, w, s);
    var late := t.prepare(call, one.1, one.2);
    late.0 == early.0 && RunOne(t, c, p, early.1, early.2) == (one.0, late.1, late.2)
  }

  /** However an earlier call is prepared, running it does not disturb how a later one is. */
  ghost predicate PreparesCommute<W(!new), L(!new), R(!new), F(!new), T(!new)>(
      t: Tools<W, L, R, F>, c: Collector<F, T>, calls: seq<ToolCall>)
    requires Ends(t)
  {
    forall i, j, w, s :: 0 <= i < j < |calls| ==>
      PrepareCommutes(t, c, t.prepare(calls[i], w, s).0, calls[j])
  }

  /** Running `p` after all calls are prepared, or before. */
  lemma {:induction false} RunPastPrepareAll<W(!new), L(!new), R(!new), F(!new), T(!new)>(
      t: Tools<W, L, R, F>, c: Collector<F, T>, p: Prepared, calls: seq<ToolCall>, w: W, s: Session)
    requires Ends(t) && forall i :: 0 <= i < |calls| ==> PrepareCommutes(t, c, p, calls[i])
    ensures var one, early := RunOne(t, c, p, w, s), PrepareAll(t, calls, w, s);
            var late := PrepareAll(t, calls, one.1, one.2);
            late.0 == early.0 && RunOne(t, c, p, early.1, early.2) == (one.0, late.1, late.2)
    decreases |calls|
  {
    hide PrepareCommutes, RunOne;
    if calls != [] {
      var n := |calls| - 1;
      RunPastPrepareAll(t, c, p, calls[..n], w, s);
      var before := PrepareAll(t, calls[..n], w, s);
      CommutesHere(t, c, p, calls[n], before.1, before.2);
    }
  }

  lemma CommutesHere<W(!new), L(!new), R(!new), F(!new), T(!new)>(
      t: Tools<W, L, R, F>, c: Collector<F, T>, p: Prepared, call: ToolCall, w: W, s: Session)
    requires Ends(t) && PrepareCommutes(t, c, p, call)
    ensures var one, early := RunOne(t, c, p, w, s), t.prepare(call, w, s);
            var late := t.prepare(call, one.1, one.2);
            late.0 == early.0 && RunOne(t, c, p, early.1, early.2) == (one.0, late.1, late.2)
  {
    hide RunOne;
    assert PrepareCommutesIn(t, c, p, call, w, s);
  }

  lemma {:induction false} PrepareAllFrom<W, L, R, F>(
      t: Tools<W, L, R, F>, calls: seq<ToolCall>, w: W, s: Session)
    requires calls != []
    ensures var first := t.prepare(calls[0], w, s);
            var rest := PrepareAll(t, calls[1..], first.1, first.2);
            PrepareAll(t, calls, w, s) == ([first.0] + rest.0, rest.1, rest.2)
    decreases |calls|
  {
    var n := |calls| - 1;
    if n == 0 {
      assert PrepareAll(t, calls[..0], w, s) == ([], w, s) && calls[1..] == [];
      var first := t.prepare(calls[0], w, s);
      assert [] + [first.0] == [first.0] + [];
    } else {
      PrepareAllFrom(t, calls[..n], w, s);
      assert calls[..n][0] == calls[0] && calls[..n][1..] == calls[1..][..n - 1] && calls[1..][n - 1] == calls[n];
      var first := t.prepare(calls[0], w, s);
      var before := PrepareAll(t, calls[..n][1..], first.1, first.2);
      var last := t.prepare(calls[n], before.1, before.2);
      assert [first.0] + (before.0 + [last.0]) == [first.0] + before.0 + [last.0];
    }
  }

  /** Preparing all calls first gives what preparing each in its turn gives, if running one call never
      disturbs how a later one is prepared. */
  lemma {:induction false} PreparingFirstIsCallByCall<W(!new), L(!new), R(!new), F(!new), T(!new)>(
      t: Tools<W, L, R, F>, c: Collector<F, T>, calls: seq<ToolCall>, w: W, s: Session)
    requires Ends(t) && PreparesCommute(t, c, calls)
    ensures PreparedFirst(t, c, calls, w, s) == CallByCall(t, c, calls, w, s)
    decreases |calls|
  {
    hide PrepareCommutes, RunOne;
    if calls != [] {
      var first := t.prepare(calls[0], w, s);
      var one := RunOne(t, c, first.0, first.1, first.2);
      forall i | 0 <= i < |calls[1..]| ensures PrepareCommutes(t, c, first.0, calls[1..][i]) {
        assert calls[1..][i] == calls[i + 1];
      }
      RunPastPrepareAll(t, c, first.0, calls[1..], first.1, first.2);
      PrepareAllFrom(t, calls, w, s);
      RestPreparesCommute(t, c, calls);
      PreparingFirstIsCallByCall(t, c, calls[1..], one.1, one.2);
      var rest := PrepareAll(t, calls[1..], first.1, first.2);
      assert ([first.0] + rest.0)[1..] == rest.0;
    }
  }

  lemma RestPreparesCommute<W(!new), L(!new), R(!new), F(!new), T(!new)>(
      t: Tools<W, L, R, F>, c: Collector<F, T>, calls: seq<ToolCall>)
    requires Ends(t) && calls != [] && PreparesCommute(t, c, calls)
    ensures PreparesCommute(t, c, calls[1..])
  {
    hide PrepareCommutes;
    forall i, j, w, s | 0 <= i < j < |calls| - 1
      ensures PrepareCommutes(t, c, t.prepare(calls[1..][i], w, s).0, calls[1..][j])
    {
      assert calls[1..][i] == calls[i + 1] && calls[1..][j] == calls[j + 1];
    }
  }
}
