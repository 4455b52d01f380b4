/**
 A batch of prepared tool calls under way: the steps of the invocations happen in any order, and calls
 are finalised in theirs, each once it has its result (src/application/chat/tool-orchestrator.ts,
 src/core/agent/agent-tool-execution.ts).  One by one is one of the orders.  Here is told exactly when
 all of them give the same.
 */
module ToolInterleaving {
  import opened Options
  import opened ToolScheduling

  /** A run of calls that are invoked together, and the environment that runs them. */
  datatype Batch<!W, !L, !R, !F, !T> = Batch(
    tools: Tools<W, L, R, F>, collect: Collector<F, T>, calls: seq<Prepared>)

  /** Where the invocations are, and the results of the calls finalised so far. */
  datatype Running<L, T, W> = Running(locals: seq<L>, results: seq<T>, workspace: W, session: Session)

  datatype Action = Step(call: nat) | Finalize

  predicate Fits<W, L, R, F, T>(b: Batch<W, L, R, F, T>, r: Running<L, T, W>) {
    |r.locals| == |b.calls| && |r.results| <= |b.calls|
  }

  function Start<W, L, R, F, T>(b: Batch<W, L, R, F, T>, w: W, s: Session): (r: Running<L, T, W>)
    ensures Fits(b, r)
  {
    Running(seq(|b.calls|, i requires 0 <= i < |b.calls| => b.tools.start(b.calls[i])), [], w, s)
  }

  predicate CallFinished<W, L, R, F, T>(b: Batch<W, L, R, F, T>, r: Running<L, T, W>, i: nat)
    requires Fits(b, r) && i < |b.calls|
  {
    Finished(b.tools, b.calls[i], r.locals[i])
  }

  predicate Enabled<W, L, R, F, T>(b: Batch<W, L, R, F, T>, r: Running<L, T, W>, a: Action)
    requires Fits(b, r)
  {
    match a
    case Step(i) => |r.results| <= i < |b.calls| && !CallFinished(b, r, i)
    case Finalize => |r.results| < |b.calls| && CallFinished(b, r, |r.results|)
  }

  function RawResult<W, L, R, F>(t: Tools<W, L, R, F>, p: Prepared, l: L): Option<R>
    requires Finished(t, p, l)
  {
    if p.blocked then None else t.result(l).value
  }

  function Act<W, L, R, F, T>(b: Batch<W, L, R, F, T>, r: Running<L, T, W>, a: Action): (next: Running<L, T, W>)
    requires Fits(b, r) && Enabled(b, r, a)
    ensures Fits(b, next)
  {
    match a
    case Step(i) =>
      var next := b.tools.step(b.calls[i], r.locals[i], r.workspace, r.session);
      Running(r.locals[i := next.0], r.results, next.1, next.2)
    case Finalize =>
      var p := b.calls[|r.results|];
      var final := b.tools.finalize(p, RawResult(b.tools, p, r.locals[|r.results|]), r.workspace, r.session);
      var collected := b.collect(p, r.session, final.0, final.1);
      Running(r.locals, r.results + [collected.0], final.2, collected.1)
  }

  predicate Allowed<W, L, R, F, T>(b: Batch<W, L, R, F, T>, r: Running<L, T, W>, schedule: seq<Action>)
    requires Fits(b, r)
    decreases schedule
  {
    schedule == []
    || (Enabled(b, r, schedule[0]) && Allowed(b, Act(b, r, schedule[0]), schedule[1..]))
  }

  function After<W, L, R, F, T>(
      b: Batch<W, L, R, F, T>, r: Running<L, T, W>, schedule: seq<Action>): (end: Running<L, T, W>)
    requires Fits(b, r) && Allowed(b, r, schedule)
    ensures Fits(b, end)
    decreases schedule
  {
    if schedule == [] then r else After(b, Act(b, r, schedule[0]), schedule[1..])
  }

  lemma {:induction false} AfterThen<W, L, R, F, T>(
      b: Batch<W, L, R, F, T>, r: Running<L, T, W>, first: seq<Action>, second: seq<Action>)
    requires Fits(b, r) && Allowed(b, r, first) && Allowed(b, After(b, r, first), second)
    ensures Allowed(b, r, first + second)
    ensures After(b, r, first + second) == After(b, After(b, r, first), second)
    decreases first
  {
    if first == [] {
      assert first + second == second;
    } else {
      assert (first + second)[1..] == first[1..] + second;
      AfterThen(b, Act(b, r, first[0]), first[1..], second);
    }
  }

  lemma Follow<W, L, R, F, T>(
      b: Batch<W, L, R, F, T>, r: Running<L, T, W>, a: Action, rest: seq<Action>)
    requires Fits(b, r) && Enabled(b, r, a) && Allowed(b, Act(b, r, a), rest)
    ensures Allowed(b, r, [a] + rest) && After(b, r, [a] + rest) == After(b, Act(b, r, a), rest)
  {
    assert ([a] + rest)[1..] == rest;
  }

  // ----- completing a batch call by call -----

  /** The call that is to be finalised next is run to its end, and finalised. */
  function Next<W, L, R, F, T>(b: Batch<W, L, R, F, T>, r: Running<L, T, W>): (a: Action)
    requires Fits(b, r) && |r.results| < |b.calls|
    ensures Enabled(b, r, a)
  {
    if CallFinished(b, r, |r.results|) then Finalize else Step(|r.results|)
  }

  ghost function Ahead<W, L, R, F, T>(b: Batch<W, L, R, F, T>, r: Running<L, T, W>): nat
    requires Fits(b, r)
  {
    if |r.results| == |b.calls| || CallFinished(b, r, |r.results|) then 0
    else b.tools.remaining(b.calls[|r.results|], r.locals[|r.results|], r.workspace, r.session) + 1
  }

  lemma NextReduces<W(!new), L(!new), R(!new), F(!new), T>(b: Batch<W, L, R, F, T>, r: Running<L, T, W>)
    requires Ends(b.tools) && Fits(b, r) && |r.results| < |b.calls|
    ensures var next := Act(b, r, Next(b, r));
            |next.results| > |r.results| || (|next.results| == |r.results| && Ahead(b, next) < Ahead(b, r))
  {
  }

  /** What a batch ends with, and after how many more actions. */
  datatype Completed<T, W> = Completed(outcome: Outcome<T, W>, actions: nat)

  ghost function Completion<W(!new), L(!new), R(!new), F(!new), T(!new)>(
      b: Batch<W, L, R, F, T>, r: Running<L, T, W>): Completed<T, W>
    requires Ends(b.tools) && Fits(b, r)
    decreases |b.calls| - |r.results|, Ahead(b, r)
  {
    if |r.results| == |b.calls| then Completed(Outcome(r.results, r.workspace, r.session), 0)
    else
      NextReduces(b, r);
      var rest := Completion(b, Act(b, r, Next(b, r)));
      rest.(actions := rest.actions + 1)
  }

  /** Completing is one schedule. */
  lemma {:induction false} CompletionIsScheduled<W(!new), L(!new), R(!new), F(!new), T(!new)>(
      b: Batch<W, L, R, F, T>, r: Running<L, T, W>) returns (schedule: seq<Action>)
    requires Ends(b.tools) && Fits(b, r)
    ensures Allowed(b, r, schedule) && |After(b, r, schedule).results| == |b.calls|
    ensures var end := After(b, r, schedule);
            Completion(b, r) == Completed(Outcome(end.results, end.workspace, end.session), |schedule|)
    decreases |b.calls| - |r.results|, Ahead(b, r)
  {
    if |r.results| == |b.calls| {
      schedule := [];
    } else {
      NextReduces(b, r);
      var rest := CompletionIsScheduled(b, Act(b, r, Next(b, r)));
      schedule := [Next(b, r)] + rest;
      Follow(b, r, Next(b, r), rest);
    }
  }

  // ----- all schedules -----

  /** However a batch goes on, it ends with the same outcome, after the same number of actions. */
  ghost predicate SchedulesAgree<W(!new), L(!new), R(!new), F(!new), T(!new)>(
      b: Batch<W, L, R, F, T>, r: Running<L, T, W>)
    requires Ends(b.tools) && Fits(b, r)
  {
    forall schedule ::
      Allowed(b, r, schedule) && |After(b, r, schedule).results| == |b.calls| ==>
        var end := After(b, r, schedule);
        Completed(Outcome(end.results, end.workspace, end.session), |schedule|) == Completion(b, r)
  }

  lemma BothEnabled<W, L, R, F, T>(b: Batch<W, L, R, F, T>, r: Running<L, T, W>, a: Action, a': Action)
    requires Fits(b, r) && Enabled(b, r, a) && Enabled(b, r, a') && a != a'
    ensures Enabled(b, Act(b, r, a), a')
  {
  }

  /** Which of two possible actions comes first makes no difference to what the batch is completed to. */
  ghost predicate OrderIgnoredAt<W(!new), L(!new), R(!new), F(!new), T(!new)>(
      b: Batch<W, L, R, F, T>, r: Running<L, T, W>)
    requires Ends(b.tools) && Fits(b, r)
  {
    forall a, a' :: Enabled(b, r, a) && Enabled(b, r, a') && a != a' ==>
      && Enabled(b, Act(b, r, a), a')
      && Enabled(b, Act(b, r, a'), a)
      && Completion(b, Act(b, Act(b, r, a), a')) == Completion(b, Act(b, Act(b, r, a'), a))
  }

  ghost predicate OrderIgnored<W(!new), L(!new), R(!new), F(!new), T(!new)>(
      b: Batch<W, L, R, F, T>, r: Running<L, T, W>)
    requires Ends(b.tools) && Fits(b, r)
  {
    forall schedule :: Allowed(b, r, schedule) ==> OrderIgnoredAt(b, After(b, r, schedule))
  }

  lemma OrderStaysIgnored<W(!new), L(!new), R(!new), F(!new), T(!new)>(
      b: Batch<W, L, R, F, T>, r: Running<L, T, W>, a: Action)
    requires Ends(b.tools) && Fits(b, r) && OrderIgnored(b, r) && Enabled(b, r, a)
    ensures OrderIgnored(b, Act(b, r, a))
  {
    forall schedule | Allowed(b, Act(b, r, a), schedule)
      ensures OrderIgnoredAt(b, After(b, Act(b, r, a), schedule))
    {
      Follow(b, r, a, schedule);
    }
  }

  /** Whatever happens first, the batch is completed to the same, one action later. */
  lemma {:induction false} AnyActionFirst<W(!new), L(!new), R(!new), F(!new), T(!new)>(
      b: Batch<W, L, R, F, T>, r: Running<L, T, W>, a: Action)
    requires Ends(b.tools) && Fits(b, r) && OrderIgnored(b, r) && Enabled(b, r, a)
    ensures var rest := Completion(b, Act(b, r, a));
            Completion(b, r) == rest.(actions := rest.actions + 1)
    decreases |b.calls| - |r.results|, Ahead(b, r)
  {
    var first := Next(b, r);
    if a != first {
      NextReduces(b, r);
      OrderStaysIgnored(b, r, first);
      BothEnabled(b, r, first, a);
      BothEnabled(b, r, a, first);
      AnyActionFirst(b, Act(b, r, first), a);
      assert After(b, r, []) == r && OrderIgnoredAt(b, r);
      assert Next(b, Act(b, r, a)) == first;
    }
  }

  lemma {:induction false} EverySchedule<W(!new), L(!new), R(!new), F(!new), T(!new)>(
      b: Batch<W, L, R, F, T>, r: Running<L, T, W>, schedule: seq<Action>)
    requires Ends(b.tools) && Fits(b, r) && OrderIgnored(b, r)
    requires Allowed(b, r, schedule) && |After(b, r, schedule).results| == |b.calls|
    ensures var end := After(b, r, schedule);
            Completed(Outcome(end.results, end.workspace, end.session), |schedule|) == Completion(b, r)
    decreases schedule
  {
    if schedule != [] {
      AnyActionFirst(b, r, schedule[0]);
      OrderStaysIgnored(b, r, schedule[0]);
      EverySchedule(b, Act(b, r, schedule[0]), schedule[1..]);
    }
  }

  /** Two ways to go on lead to what the same schedules lead to. */
  lemma SwappedAgree<W(!new), L(!new), R(!new), F(!new), T(!new)>(
      b: Batch<W, L, R, F, T>, r: Running<L, T, W>, schedule: seq<Action>, a: Action, a': Action)
    requires Ends(b.tools) && Fits(b, r) && SchedulesAgree(b, r) && Allowed(b, r, schedule)
    requires Enabled(b, After(b, r, schedule), a) && Enabled(b, Act(b, After(b, r, schedule), a), a')
    ensures var rest := Completion(b, Act(b, Act(b, After(b, r, schedule), a), a'));
            Completion(b, r) == rest.(actions := rest.actions + |schedule| + 2)
  {
    hide Enabled, Act, Completion;
    var here := After(b, r, schedule);
    var rest := CompletionIsScheduled(b, Act(b, Act(b, here, a), a'));
    Follow(b, Act(b, here, a), a', rest);
    Follow(b, here, a, [a'] + rest);
    AfterThen(b, r, schedule, [a] + ([a'] + rest));
  }

  lemma AgreeIgnoresOrder<W(!new), L(!new), R(!new), F(!new), T(!new)>(
      b: Batch<W, L, R, F, T>, r: Running<L, T, W>, schedule: seq<Action>)
    requires Ends(b.tools) && Fits(b, r) && SchedulesAgree(b, r) && Allowed(b, r, schedule)
    ensures OrderIgnoredAt(b, After(b, r, schedule))
  {
    hide SchedulesAgree, Enabled, Act, Allowed, After, Completion;
    var here := After(b, r, schedule);
    forall a, a' | Enabled(b, here, a) && Enabled(b, here, a') && a != a'
      ensures && Enabled(b, Act(b, here, a), a')
              && Enabled(b, Act(b, here, a'), a)
              && Completion(b, Act(b, Act(b, here, a), a')) == Completion(b, Act(b, Act(b, here, a'), a))
    {
      BothEnabled(b, here, a, a');
      BothEnabled(b, here, a', a);
      SwappedAgree(b, r, schedule, a, a');
      SwappedAgree(b, r, schedule, a', a);
    }
  }

  /** All schedules agree exactly if the order of two neighbouring actions never matters. */
  lemma SchedulesAgreeExactly<W(!new), L(!new), R(!new), F(!new), T(!new)>(
      b: Batch<W, L, R, F, T>, r: Running<L, T, W>)
    requires Ends(b.tools) && Fits(b, r)
    ensures SchedulesAgree(b, r) <==> OrderIgnored(b, r)
  {
    hide Enabled, Act, Allowed, After, Completion, OrderIgnoredAt;
    if OrderIgnored(b, r) {
      forall schedule | Allowed(b, r, schedule) && |After(b, r, schedule).results| == |b.calls|
        ensures var end := After(b, r, schedule);
                Completed(Outcome(end.results, end.workspace, end.session), |schedule|) == Completion(b, r)
      {
        EverySchedule(b, r, schedule);
      }
    }
    if SchedulesAgree(b, r) {
      forall schedule | Allowed(b, r, schedule) ensures OrderIgnoredAt(b, After(b, r, schedule)) {
        AgreeIgnoresOrder(b, r, schedule);
      }
    }
  }

  // ----- actions that commute -----

  /** Two possible actions lead to the same state in either order, and no step writes to the session. */
  ghost predicate CommuteAt<W, L, R, F, T>(b: Batch<W, L, R, F, T>, r: Running<L, T, W>)
    requires Fits(b, r)
  {
    && (forall a, a' :: Enabled(b, r, a) && Enabled(b, r, a') && a != a' ==>
          && Enabled(b, Act(b, r, a), a')
          && Enabled(b, Act(b, r, a'), a)
          && Act(b, Act(b, r, a), a') == Act(b, Act(b, r, a'), a))
    && (forall i :: Enabled(b, r, Step(i)) ==> Act(b, r, Step(i)).session == r.session)
  }

  /** So it is in every state that the batch can reach. */
  ghost predicate Commuting<W, L, R, F, T>(b: Batch<W, L, R, F, T>, r: Running<L, T, W>)
    requires Fits(b, r)
  {
    forall schedule :: Allowed(b, r, schedule) ==> CommuteAt(b, After(b, r, schedule))
  }

  lemma StaysCommuting<W, L, R, F, T>(b: Batch<W, L, R, F, T>, r: Running<L, T, W>, a: Action)
    requires Fits(b, r) && Commuting(b, r) && Enabled(b, r, a)
    ensures Commuting(b, Act(b, r, a))
    ensures a.Step? ==> Act(b, r, a).session == r.session
  {
    assert After(b, r, []) == r;
    forall schedule | Allowed(b, Act(b, r, a), schedule)
      ensures CommuteAt(b, After(b, Act(b, r, a), schedule))
    {
      Follow(b, r, a, schedule);
    }
  }

  /** Actions that commute may be taken in any order. */
  lemma CommutingIgnoresOrder<W(!new), L(!new), R(!new), F(!new), T(!new)>(
      b: Batch<W, L, R, F, T>, r: Running<L, T, W>)
    requires Ends(b.tools) && Fits(b, r) && Commuting(b, r)
    ensures OrderIgnored(b, r) && SchedulesAgree(b, r)
  {
    hide Enabled, Act, Allowed, After, Completion;
    forall schedule | Allowed(b, r, schedule) ensures OrderIgnoredAt(b, After(b, r, schedule)) {
      assert CommuteAt(b, After(b, r, schedule));
    }
    SchedulesAgreeExactly(b, r);
  }

  /** The calls from `k` on are still at their start. */
  ghost predicate NotStarted<W, L, R, F, T>(b: Batch<W, L, R, F, T>, r: Running<L, T, W>, k: nat)
    requires Fits(b, r)
  {
    forall i :: k <= i < |b.calls| ==> r.locals[i] == b.tools.start(b.calls[i])
  }

  /** The outcome if the call that is next has given `raw`, and the others run one by one. */
  ghost function FinalizedThenOneByOne<W(!new), L(!new), R(!new), F(!new), T(!new)>(
      b: Batch<W, L, R, F, T>, r: Running<L, T, W>, raw: (Option<R>, W, Session)): Outcome<T, W>
    requires Ends(b.tools) && Fits(b, r) && |r.results| < |b.calls|
  {
    var k := |r.results|;
    var final := b.tools.finalize(b.calls[k], raw.0, raw.1, raw.2);
    var collected := b.collect(b.calls[k], r.session, final.0, final.1);
    var rest := OneByOne(b.tools, b.collect, b.calls[k + 1..], final.2, collected.1);
    rest.(results := r.results + [collected.0] + rest.results)
  }

  ghost function FromHere<W(!new), L(!new), R(!new), F(!new), T(!new)>(
      b: Batch<W, L, R, F, T>, r: Running<L, T, W>): (Option<R>, W, Session)
    requires Ends(b.tools) && Fits(b, r) && |r.results| < |b.calls|
  {
    var k := |r.results|;
    if b.calls[k].blocked then (None, r.workspace, r.session)
    else Invoke(b.tools, b.calls[k], r.locals[k], r.workspace, r.session)
  }

  /** Completing a batch whose steps leave the session alone is to run it one by one. */
  lemma {:induction false} CompletionIsOneByOne<W(!new), L(!new), R(!new), F(!new), T(!new)>(
      b: Batch<W, L, R, F, T>, r: Running<L, T, W>)
    requires Ends(b.tools) && Fits(b, r) && Commuting(b, r) && NotStarted(b, r, |r.results| + 1)
    ensures Completion(b, r).outcome
            == if |r.results| == |b.calls| then Outcome(r.results, r.workspace, r.session)
               else FinalizedThenOneByOne(b, r, FromHere(b, r))
    decreases |b.calls| - |r.results|, Ahead(b, r)
  {
    if |r.results| < |b.calls| {
      var a := Next(b, r);
      var next := Act(b, r, a);
      NextReduces(b, r);
      StaysCommuting(b, r, a);
      CompletionIsOneByOne(b, next);
      if a.Finalize? {
        FinalizedNext(b, r);
      }
    }
  }

  lemma FinalizedNext<W(!new), L(!new), R(!new), F(!new), T(!new)>(
      b: Batch<W, L, R, F, T>, r: Running<L, T, W>)
    requires Ends(b.tools) && Fits(b, r) && NotStarted(b, r, |r.results| + 1) && Enabled(b, r, Finalize)
    ensures var next := Act(b, r, Finalize);
            FinalizedThenOneByOne(b, r, FromHere(b, r))
            == if |next.results| == |b.calls| then Outcome(next.results, next.workspace, next.session)
               else FinalizedThenOneByOne(b, next, FromHere(b, next))
  {
    var next, k := Act(b, r, Finalize), |r.results|;
    if k + 1 < |b.calls| {
      assert b.calls[k + 1..][0] == b.calls[k + 1] && b.calls[k + 1..][1..] == b.calls[k + 2..];
      assert r.locals[k + 1] == b.tools.start(b.calls[k + 1]);
      var whole := FinalizedThenOneByOne(b, next, FromHere(b, next));
      var one := RunOne(b.tools, b.collect, b.calls[k + 1], next.workspace, next.session);
      var rest := OneByOne(b.tools, b.collect, b.calls[k + 2..], one.1, one.2);
      assert whole.results == next.results + [one.0] + rest.results;
      assert next.results + [one.0] + rest.results == next.results + ([one.0] + rest.results);
    }
  }

  /** From the start: every schedule of a batch whose actions commute is as good as one by one. */
  lemma CommutingIsOneByOne<W(!new), L(!new), R(!new), F(!new), T(!new)>(
      b: Batch<W, L, R, F, T>, w: W, s: Session)
    requires Ends(b.tools) && Commuting(b, Start(b, w, s))
    ensures SchedulesAgree(b, Start(b, w, s))
    ensures Completion(b, Start(b, w, s)).outcome == OneByOne(b.tools, b.collect, b.calls, w, s)
  {
    CommutingIgnoresOrder(b, Start(b, w, s));
    CompletionIsOneByOne(b, Start(b, w, s));
    if b.calls != [] {
      var one := RunOne(b.tools, b.collect, b.calls[0], w, s);
      assert [] + [one.0] == [one.0];
    }
  }

  // ----- pairs of calls -----

  /** A call neither reads nor writes the session while it is invoked. */
  ghost predicate IgnoresSession<W(!new), L(!new), R(!new), F(!new)>(t: Tools<W, L, R, F>, p: Prepared) {
    forall l, w, s, s' :: t.result(l).None? ==> IgnoresSessionIn(t, p, l, w, s, s')
  }

  ghost predicate IgnoresSessionIn<W, L, R, F>(
      t: Tools<W, L, R, F>, p: Prepared, l: L, w: W, s: Session, s': Session)
  {
    var x := t.step(p, l, w, s);
    x.2 == s && t.step(p, l, w, s') == (x.0, x.1, s')
  }

  /** A step of one call and a step of the other may be taken in either order. */
  ghost predicate StepsCommute<W(!new), L(!new), R(!new), F(!new)>(
      t: Tools<W, L, R, F>, p: Prepared, q: Prepared)
  {
    forall l, l', w, s :: t.result(l).None? && t.result(l').None? ==> StepsCommuteIn(t, p, q, l, l', w, s)
  }

  ghost predicate StepsCommuteIn<W, L, R, F>(
      t: Tools<W, L, R, F>, p: Prepared, q: Prepared, l: L, l': L, w: W, s: Session)
  {
    var x, y := t.step(p, l, w, s), t.step(q, l', w, s);
    && t.step(p, l, y.1, s).0 == x.0
    && t.step(q, l', x.1, s).0 == y.0
    && t.step(p, l, y.1, s).1 == t.step(q, l', x.1, s).1
  }

  /** `p` may be finalised before or after a step of `q`. */
  ghost predicate FinalizeCommutes<W(!new), L(!new), R(!new), F(!new)>(
      t: Tools<W, L, R, F>, p: Prepared, q: Prepared)
  {
    forall raw, l, w, s :: t.result(l).None? ==> FinalizeCommutesIn(t, p, q, raw, l, w, s)
  }

  ghost predicate FinalizeCommutesIn<W, L, R, F>(
      t: Tools<W, L, R, F>, p: Prepared, q: Prepared, raw: Option<R>, l: L, w: W, s: Session)
  {
    var x, final := t.step(q, l, w, s), t.finalize(p, raw, w, s);
    var late := t.finalize(p, raw, x.1, s);
    && late.0 == final.0 && late.1 == final.1
    && t.step(q, l, final.2, s).0 == x.0
    && t.step(q, l, final.2, s).1 == late.2
  }

  /** What is asked of a batch call by call and pair by pair; blocked calls take no steps. */
  ghost predicate PairsCommute<W(!new), L(!new), R(!new), F(!new)>(t: Tools<W, L, R, F>, calls: seq<Prepared>) {
    && (forall i :: 0 <= i < |calls| && !calls[i].blocked ==> IgnoresSession(t, calls[i]))
    && (forall i, j :: 0 <= i < j < |calls| && !calls[i].blocked && !calls[j].blocked ==>
          StepsCommute(t, calls[i], calls[j]))
    && (forall i, j :: 0 <= i < j < |calls| && !calls[j].blocked ==> FinalizeCommutes(t, calls[i], calls[j]))
  }

  lemma StepsInEitherOrder<W(!new), L(!new), R(!new), F(!new)>(
      t: Tools<W, L, R, F>, p: Prepared, q: Prepared, l: L, l': L, w: W, s: Session)
    requires IgnoresSession(t, p) && IgnoresSession(t, q) && StepsCommute(t, p, q)
    requires t.result(l).None? && t.result(l').None?
    ensures var x, y := t.step(p, l, w, s), t.step(q, l', w, s);
            && x.2 == s && y.2 == s
            && t.step(p, l, y.1, s) == (x.0, t.step(q, l', x.1, s).1, s)
            && t.step(q, l', x.1, s).0 == y.0 && t.step(q, l', x.1, s).2 == s
  {
    var x, y := t.step(p, l, w, s), t.step(q, l', w, s);
    assert StepsCommuteIn(t, p, q, l, l', w, s);
    assert IgnoresSessionIn(t, p, l, w, s, s) && IgnoresSessionIn(t, q, l', w, s, s);
    assert IgnoresSessionIn(t, p, l, y.1, s, s) && IgnoresSessionIn(t, q, l', x.1, s, s);
  }

  lemma TwoStepsCommute<W(!new), L(!new), R(!new), F(!new), T(!new)>(
      b: Batch<W, L, R, F, T>, r: Running<L, T, W>, i: nat, j: nat)
    requires Fits(b, r) && Enabled(b, r, Step(i)) && Enabled(b, r, Step(j)) && i < j
    requires PairsCommute(b.tools, b.calls)
    ensures && Enabled(b, Act(b, r, Step(i)), Step(j))
            && Enabled(b, Act(b, r, Step(j)), Step(i))
            && Act(b, Act(b, r, Step(i)), Step(j)) == Act(b, Act(b, r, Step(j)), Step(i))
  {
    hide IgnoresSession, StepsCommute, FinalizeCommutes;
    var t, p, q, w, s := b.tools, b.calls[i], b.calls[j], r.workspace, r.session;
    StepsInEitherOrder(t, p, q, r.locals[i], r.locals[j], w, s);
    var x, y := t.step(p, r.locals[i], w, s), t.step(q, r.locals[j], w, s);
    assert r.locals[i := x.0][j := y.0] == r.locals[j := y.0][i := x.0];
  }

  lemma FinalizeInEitherOrder<W(!new), L(!new), R(!new), F(!new)>(
      t: Tools<W, L, R, F>, p: Prepared, raw: Option<R>, q: Prepared, l: L, w: W, s: Session, after: Session)
    requires IgnoresSession(t, q) && FinalizeCommutes(t, p, q) && t.result(l).None?
    ensures var x, final := t.step(q, l, w, s), t.finalize(p, raw, w, s);
            var late := t.finalize(p, raw, x.1, s);
            && x.2 == s && (late.0, late.1) == (final.0, final.1)
            && t.step(q, l, final.2, after) == (x.0, late.2, after)
  {
    var final := t.finalize(p, raw, w, s);
    assert FinalizeCommutesIn(t, p, q, raw, l, w, s);
    assert IgnoresSessionIn(t, q, l, w, s, s) && IgnoresSessionIn(t, q, l, final.2, s, after);
  }

  lemma StepAndFinalizeCommute<W(!new), L(!new), R(!new), F(!new), T(!new)>(
      b: Batch<W, L, R, F, T>, r: Running<L, T, W>, j: nat)
    requires Fits(b, r) && Enabled(b, r, Finalize) && Enabled(b, r, Step(j))
    requires PairsCommute(b.tools, b.calls)
    ensures && Enabled(b, Act(b, r, Finalize), Step(j))
            && Enabled(b, Act(b, r, Step(j)), Finalize)
            && Act(b, Act(b, r, Finalize), Step(j)) == Act(b, Act(b, r, Step(j)), Finalize)
  {
    hide IgnoresSession, StepsCommute, FinalizeCommutes;
    var t, k, w, s := b.tools, |r.results|, r.workspace, r.session;
    var p, q, l := b.calls[k], b.calls[j], r.locals[j];
    var raw := RawResult(t, p, r.locals[k]);
    var final := t.finalize(p, raw, w, s);
    FinalizeInEitherOrder(t, p, raw, q, l, w, s, b.collect(p, s, final.0, final.1).1);
  }

  lemma TwoActionsCommute<W(!new), L(!new), R(!new), F(!new), T(!new)>(
      b: Batch<W, L, R, F, T>, r: Running<L, T, W>, a: Action, a': Action)
    requires Fits(b, r) && Enabled(b, r, a) && Enabled(b, r, a') && a != a'
    requires PairsCommute(b.tools, b.calls)
    ensures && Enabled(b, Act(b, r, a), a')
            && Enabled(b, Act(b, r, a'), a)
            && Act(b, Act(b, r, a), a') == Act(b, Act(b, r, a'), a)
  {
    hide *;
    if a.Finalize? {
      StepAndFinalizeCommute(b, r, a'.call);
    } else if a'.Finalize? {
      StepAndFinalizeCommute(b, r, a.call);
    } else if a.call < a'.call {
      TwoStepsCommute(b, r, a.call, a'.call);
    } else {
      TwoStepsCommute(b, r, a'.call, a.call);
    }
  }

  lemma StepKeepsSession<W(!new), L(!new), R(!new), F(!new), T(!new)>(
      b: Batch<W, L, R, F, T>, r: Running<L, T, W>, i: nat)
    requires Fits(b, r) && Enabled(b, r, Step(i)) && PairsCommute(b.tools, b.calls)
    ensures Act(b, r, Step(i)).session == r.session
  {
    assert IgnoresSessionIn(b.tools, b.calls[i], r.locals[i], r.workspace, r.session, r.session);
  }

  /** If its pairs commute, the actions of a batch commute in every state. */
  lemma PairsDecide<W(!new), L(!new), R(!new), F(!new), T(!new)>(b: Batch<W, L, R, F, T>, r: Running<L, T, W>)
    requires Fits(b, r) && PairsCommute(b.tools, b.calls)
    ensures Commuting(b, r)
  {
    forall schedule | Allowed(b, r, schedule) ensures CommuteAt(b, After(b, r, schedule)) {
      PairsCommuteAt(b, After(b, r, schedule));
    }
  }

  lemma PairsCommuteAt<W(!new), L(!new), R(!new), F(!new), T(!new)>(b: Batch<W, L, R, F, T>, r: Running<L, T, W>)
    requires Fits(b, r) && PairsCommute(b.tools, b.calls)
    ensures CommuteAt(b, r)
  {
    hide Act, Enabled, PairsCommute;
    forall a, a' | Enabled(b, r, a) && Enabled(b, r, a') && a != a'
      ensures && Enabled(b, Act(b, r, a), a')
              && Enabled(b, Act(b, r, a'), a)
              && Act(b, Act(b, r, a), a') == Act(b, Act(b, r, a'), a)
    {
      TwoActionsCommute(b, r, a, a');
    }
    forall i: nat | Enabled(b, r, Step(i)) ensures Act(b, r, Step(i)).session == r.session {
      StepKeepsSession(b, r, i);
    }
  }

  // ----- calls that only read -----

  ghost predicate OnlyReads<W(!new), L(!new), R(!new), F(!new)>(t: Tools<W, L, R, F>, p: Prepared) {
    forall l, w, s :: t.result(l).None? ==> t.step(p, l, w, s).1 == w
  }

  /** `q` does not read what finalising `p` writes to the workspace. */
  ghost predicate FinalizeUnseen<W(!new), L(!new), R(!new), F(!new)>(
      t: Tools<W, L, R, F>, p: Prepared, q: Prepared)
  {
    forall raw, l, w, s :: t.result(l).None? ==>
      t.step(q, l, t.finalize(p, raw, w, s).2, s).0 == t.step(q, l, w, s).0
  }

  /** Calls that only read commute, if none of them reads what finalising another one writes. */
  lemma ReadOnlyPairsCommute<W(!new), L(!new), R(!new), F(!new)>(t: Tools<W, L, R, F>, calls: seq<Prepared>)
    requires forall i :: 0 <= i < |calls| && !calls[i].blocked ==>
               IgnoresSession(t, calls[i]) && OnlyReads(t, calls[i])
    requires forall i, j :: 0 <= i < j < |calls| && !calls[j].blocked ==> FinalizeUnseen(t, calls[i], calls[j])
    ensures PairsCommute(t, calls)
  {
    forall i, j | 0 <= i < j < |calls| && !calls[i].blocked && !calls[j].blocked
      ensures StepsCommute(t, calls[i], calls[j])
    {
      assert OnlyReads(t, calls[i]) && OnlyReads(t, calls[j]);
    }
    forall i, j | 0 <= i < j < |calls| && !calls[j].blocked ensures FinalizeCommutes(t, calls[i], calls[j]) {
      assert OnlyReads(t, calls[j]) && FinalizeUnseen(t, calls[i], calls[j]);
    }
  }

  // ----- calls of one step: pairs decide exactly -----

  ghost predicate OneStep<W(!new), L(!new), R(!new), F(!new)>(t: Tools<W, L, R, F>, p: Prepared) {
    && !p.blocked && t.result(t.start(p)).None?
    && forall w, s :: t.result(t.step(p, t.start(p), w, s).0).Some? && t.step(p, t.start(p), w, s).2 == s
  }

  /** Two calls of one step give the same results, and leave the same workspace, in either order. */
  ghost predicate WritesCommute<W(!new), L(!new), R(!new), F(!new)>(
      t: Tools<W, L, R, F>, p: Prepared, q: Prepared)
  {
    forall w, s :: WritesCommuteIn(t, p, q, w, s)
  }

  ghost predicate WritesCommuteIn<W, L, R, F>(
      t: Tools<W, L, R, F>, p: Prepared, q: Prepared, w: W, s: Session)
  {
    var x, y := t.step(p, t.start(p), w, s), t.step(q, t.start(q), w, s);
    var x', y' := t.step(p, t.start(p), y.1, s), t.step(q, t.start(q), x.1, s);
    && t.result(x'.0) == t.result(x.0)
    && t.result(y'.0) == t.result(y.0)
    && x'.1 == y'.1
  }

  /** The invocations alone: finalising hands the raw result on and writes nothing. */
  function Bare<W, L, R, F>(t: Tools<W, L, R, F>): Tools<W, L, R, Option<R>> {
    Tools(t.prepare, t.start, t.step, t.result, t.remaining,
          (p: Prepared, raw: Option<R>, w: W, s: Session) => (s, raw, w), (raw: Option<R>) => false)
  }

  function Invocations<W, L, R, F>(
      t: Tools<W, L, R, F>, calls: seq<Prepared>): Batch<W, L, R, Option<R>, Option<R>>
  {
    Batch(Bare(t), AgentLoop(), calls)
  }

  /** The same state, up to what the finished invocations hold besides their results. */
  ghost predicate Alike<W, L, R, F, T>(
      b: Batch<W, L, R, F, T>, r: Running<L, T, W>, r': Running<L, T, W>)
  {
    && Fits(b, r) && Fits(b, r')
    && r.results == r'.results && r.workspace == r'.workspace && r.session == r'.session
    && forall i :: 0 <= i < |b.calls| ==>
         r.locals[i] == r'.locals[i]
         || (b.tools.result(r.locals[i]).Some? && b.tools.result(r.locals[i]) == b.tools.result(r'.locals[i]))
  }

  lemma {:induction false} AlikeComplete<W(!new), L(!new), R(!new), F(!new), T(!new)>(
      b: Batch<W, L, R, F, T>, r: Running<L, T, W>, r': Running<L, T, W>)
    requires Ends(b.tools) && Alike(b, r, r')
    ensures Completion(b, r) == Completion(b, r')
    decreases |b.calls| - |r.results|, Ahead(b, r)
  {
    if |r.results| < |b.calls| {
      NextReduces(b, r);
      AlikeComplete(b, Act(b, r, Next(b, r)), Act(b, r', Next(b, r')));
    }
  }

  /** Every invocation is at its start or has its result. */
  ghost predicate StartOrEnd<W, L, R, F, T>(b: Batch<W, L, R, F, T>, r: Running<L, T, W>) {
    && Fits(b, r)
    && forall i :: 0 <= i < |b.calls| ==>
         r.locals[i] == b.tools.start(b.calls[i]) || b.tools.result(r.locals[i]).Some?
  }

  ghost predicate OneStepCalls<W(!new), L(!new), R(!new), F(!new)>(t: Tools<W, L, R, F>, calls: seq<Prepared>) {
    forall i :: 0 <= i < |calls| ==> OneStep(t, calls[i])
  }

  lemma {:induction false} StaysStartOrEnd<W(!new), L(!new), R(!new), F(!new)>(
      t: Tools<W, L, R, F>, calls: seq<Prepared>, r: Running<L, Option<R>, W>, schedule: seq<Action>)
    requires OneStepCalls(t, calls) && StartOrEnd(Invocations(t, calls), r)
    requires Allowed(Invocations(t, calls), r, schedule)
    ensures StartOrEnd(Invocations(t, calls), After(Invocations(t, calls), r, schedule))
    decreases schedule
  {
    if schedule != [] {
      StaysStartOrEnd(t, calls, Act(Invocations(t, calls), r, schedule[0]), schedule[1..]);
    }
  }

  /** Two of them, from a state in which each is at its start or has its result. */
  lemma OneStepsIgnoreOrder<W(!new), L(!new), R(!new), F(!new)>(
      t: Tools<W, L, R, F>, calls: seq<Prepared>, r: Running<L, Option<R>, W>, i: nat, j: nat)
    requires Ends(t) && OneStepCalls(t, calls) && StartOrEnd(Invocations(t, calls), r) && i != j
    requires Enabled(Invocations(t, calls), r, Step(i)) && Enabled(Invocations(t, calls), r, Step(j))
    requires WritesCommuteIn(t, calls[i], calls[j], r.workspace, r.session)
    ensures var b := Invocations(t, calls);
            && Enabled(b, Act(b, r, Step(i)), Step(j))
            && Enabled(b, Act(b, r, Step(j)), Step(i))
            && Alike(b, Act(b, Act(b, r, Step(i)), Step(j)), Act(b, Act(b, r, Step(j)), Step(i)))
  {
    assert OneStep(t, calls[i]) && OneStep(t, calls[j]);
  }

  lemma OneStepOrderOf<W(!new), L(!new), R(!new), F(!new)>(
      t: Tools<W, L, R, F>, calls: seq<Prepared>, r: Running<L, Option<R>, W>, a: Action, a': Action)
    requires Ends(t) && OneStepCalls(t, calls) && StartOrEnd(Invocations(t, calls), r)
    requires forall i, j :: 0 <= i < |calls| && 0 <= j < |calls| ==> WritesCommute(t, calls[i], calls[j])
    requires Enabled(Invocations(t, calls), r, a) && Enabled(Invocations(t, calls), r, a') && a != a'
    ensures var b := Invocations(t, calls);
            && Enabled(b, Act(b, r, a), a')
            && Enabled(b, Act(b, r, a'), a)
            && Completion(b, Act(b, Act(b, r, a), a')) == Completion(b, Act(b, Act(b, r, a'), a))
  {
    var b := Invocations(t, calls);
    if a.Step? && a'.Step? {
      assert WritesCommute(t, calls[a.call], calls[a'.call]);
      assert WritesCommuteIn(t, calls[a.call], calls[a'.call], r.workspace, r.session);
      OneStepsIgnoreOrder(t, calls, r, a.call, a'.call);
      hide *;
      AlikeComplete(b, Act(b, Act(b, r, a), a'), Act(b, Act(b, r, a'), a));
    } else {
      hide WritesCommute, OneStepCalls;
      BothEnabled(b, r, a, a');
      BothEnabled(b, r, a', a);
    }
  }

  lemma OneStepOrder<W(!new), L(!new), R(!new), F(!new)>(
      t: Tools<W, L, R, F>, calls: seq<Prepared>, r: Running<L, Option<R>, W>)
    requires Ends(t) && OneStepCalls(t, calls) && StartOrEnd(Invocations(t, calls), r)
    requires forall i, j :: 0 <= i < |calls| && 0 <= j < |calls| ==> WritesCommute(t, calls[i], calls[j])
    ensures OrderIgnoredAt(Invocations(t, calls), r)
  {
    var b := Invocations(t, calls);
    hide WritesCommute, OneStepCalls, Enabled, Act, Completion;
    forall a, a' | Enabled(b, r, a) && Enabled(b, r, a') && a != a'
      ensures && Enabled(b, Act(b, r, a), a')
              && Enabled(b, Act(b, r, a'), a)
              && Completion(b, Act(b, Act(b, r, a), a')) == Completion(b, Act(b, Act(b, r, a'), a))
    {
      OneStepOrderOf(t, calls, r, a, a');
    }
  }

  /** All batches of calls out of `calls` agree. */
  ghost predicate BatchesAgree<W(!new), L(!new), R(!new), F(!new)>(t: Tools<W, L, R, F>, calls: set<Prepared>)
    requires Ends(t)
  {
    forall batch: seq<Prepared>, w, s :: (forall p :: p in batch ==> p in calls) ==>
      SchedulesAgree(Invocations(t, batch), Start(Invocations(t, batch), w, s))
  }

  /** Of calls that take one step each, all batches agree in all workspaces exactly if any two of them commute. */
  lemma OneStepCallsAgreeExactly<W(!new), L(!new), R(!new), F(!new)>(t: Tools<W, L, R, F>, calls: set<Prepared>)
    requires Ends(t) && forall p :: p in calls ==> OneStep(t, p)
    ensures BatchesAgree(t, calls) <==> forall p, q :: p in calls && q in calls ==> WritesCommute(t, p, q)
  {
    if forall p, q :: p in calls && q in calls ==> WritesCommute(t, p, q) {
      forall batch: seq<Prepared>, w, s | forall p :: p in batch ==> p in calls
        ensures SchedulesAgree(Invocations(t, batch), Start(Invocations(t, batch), w, s))
      {
        AllOneStepsAgree(t, batch, w, s);
      }
    }
    if BatchesAgree(t, calls) {
      forall p, q | p in calls && q in calls ensures WritesCommute(t, p, q) {
        forall w, s ensures WritesCommuteIn(t, p, q, w, s) {
          assert SchedulesAgree(Invocations(t, [p, q]), Start(Invocations(t, [p, q]), w, s));
          PairShowsWrites(t, p, q, w, s);
        }
      }
    }
  }

  lemma AllOneStepsAgree<W(!new), L(!new), R(!new), F(!new)>(
      t: Tools<W, L, R, F>, batch: seq<Prepared>, w: W, s: Session)
    requires Ends(t) && OneStepCalls(t, batch)
    requires forall i, j :: 0 <= i < |batch| && 0 <= j < |batch| ==> WritesCommute(t, batch[i], batch[j])
    ensures SchedulesAgree(Invocations(t, batch), Start(Invocations(t, batch), w, s))
  {
    var b := Invocations(t, batch);
    var r := Start(b, w, s);
    forall schedule | Allowed(b, r, schedule) ensures OrderIgnoredAt(b, After(b, r, schedule)) {
      StaysStartOrEnd(t, batch, r, schedule);
      OneStepOrder(t, batch, After(b, r, schedule));
    }
    SchedulesAgreeExactly(b, r);
  }

  /** Once both invocations of a pair have their results, it is completed to these. */
  lemma BothFinished<W(!new), L(!new), R(!new), F(!new)>(
      t: Tools<W, L, R, F>, p: Prepared, q: Prepared, r: Running<L, Option<R>, W>)
    requires Ends(t) && Fits(Invocations(t, [p, q]), r) && r.results == [] && !p.blocked && !q.blocked
    requires t.result(r.locals[0]).Some? && t.result(r.locals[1]).Some?
    ensures Completion(Invocations(t, [p, q]), r).outcome
            == Outcome([t.result(r.locals[0]).value, t.result(r.locals[1]).value], r.workspace, r.session)
  {
    var b := Invocations(t, [p, q]);
    var first := Act(b, r, Finalize);
    var second := Act(b, first, Finalize);
    assert Completion(b, r).outcome == Completion(b, first).outcome == Completion(b, second).outcome;
  }

  lemma PairShowsWrites<W(!new), L(!new), R(!new), F(!new)>(
      t: Tools<W, L, R, F>, p: Prepared, q: Prepared, w: W, s: Session)
    requires Ends(t) && OneStep(t, p) && OneStep(t, q)
    requires SchedulesAgree(Invocations(t, [p, q]), Start(Invocations(t, [p, q]), w, s))
    ensures WritesCommuteIn(t, p, q, w, s)
  {
    var b := Invocations(t, [p, q]);
    var r := Start(b, w, s);
    SchedulesAgreeExactly(b, r);
    assert After(b, r, []) == r && OrderIgnoredAt(b, r);
    assert Enabled(b, r, Step(0)) && Enabled(b, r, Step(1));
    var x, y := Act(b, Act(b, r, Step(0)), Step(1)), Act(b, Act(b, r, Step(1)), Step(0));
    assert Completion(b, x) == Completion(b, y);
    BothFinished(t, p, q, x);
    BothFinished(t, p, q, y);
    var one, other := Completion(b, x).outcome, Completion(b, y).outcome;
    assert one.results[0] == other.results[0] && one.results[1] == other.results[1];
  }
}
