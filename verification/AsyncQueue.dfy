/**
 The queue between the producer of turn events and their reader
 (src/application/chat/conversation-engine.ts and, as a second copy,
 src/core/agent/agent-provider.ts).
 */
module AsyncQueue {

  /** A pushed value; `Undefined` is the one that `shift` cannot tell from an empty list. */
  datatype Value<+T> = Undefined | Defined(value: T)

  datatype Answer<+T> = Delivered(value: Value<T>) | Done

  datatype Op<+T> = Push(value: Value<T>) | Close | Next

  /** The implementation: buffered values, waiting calls of next() by number, answered calls. */
  datatype Queue<T> = Queue(
    values: seq<Value<T>>,
    waiters: seq<nat>,
    closed: bool,
    calls: nat,
    answers: map<nat, Answer<T>>)

  function AnswerAll<T>(answers: map<nat, Answer<T>>, waiters: seq<nat>): map<nat, Answer<T>>
    decreases waiters
  {
    if waiters == [] then answers else AnswerAll(answers[waiters[0] := Done], waiters[1..])
  }

  function Step<T>(q: Queue<T>, op: Op<T>): Queue<T> {
    match op
    case Push(v) =>
      if q.closed then q
      else if q.waiters != [] then
        q.(waiters := q.waiters[1..], answers := q.answers[q.waiters[0] := Delivered(v)])
      else q.(values := q.values + [v])
    case Close =>
      q.(closed := true, waiters := [], answers := AnswerAll(q.answers, q.waiters))
    case Next =>
      var id := q.calls;
      var q' := q.(calls := id + 1, values := if q.values == [] then [] else q.values[1..]);
      if q.values != [] && q.values[0].Defined? then
        q'.(answers := q.answers[id := Delivered(q.values[0])])
      else if q.closed then q'.(answers := q.answers[id := Done])
      else q'.(waiters := q.waiters + [id])
  }

  function Run<T>(q: Queue<T>, ops: seq<Op<T>>): Queue<T>
    decreases ops
  {
    if ops == [] then q else Run(Step(q, ops[0]), ops[1..])
  }

  function Fresh<T>(): Queue<T> {
    Queue([], [], false, 0, map[])
  }

  /** The specification: the values pushed before close, how often next() was called, closed or not. */
  datatype Spec<T> = Spec(pushed: seq<Value<T>>, calls: nat, closed: bool)

  function SpecStep<T>(s: Spec<T>, op: Op<T>): Spec<T> {
    match op
    case Push(v) => if s.closed then s else s.(pushed := s.pushed + [v])
    case Close => s.(closed := true)
    case Next => s.(calls := s.calls + 1)
  }

  function SpecRun<T>(s: Spec<T>, ops: seq<Op<T>>): Spec<T>
    decreases ops
  {
    if ops == [] then s else SpecRun(SpecStep(s, ops[0]), ops[1..])
  }

  /** The i-th call receives the i-th value, or done once closed with fewer values, or waits. */
  ghost predicate AnswersAsSpecified<T>(q: Queue<T>, s: Spec<T>) {
    forall i: nat ::
      && (i in q.answers <==> i < s.calls && (i < |s.pushed| || s.closed))
      && (i in q.answers ==> q.answers[i] == if i < |s.pushed| then Delivered(s.pushed[i]) else Done)
  }

  /** What is buffered and who waits, told by the specification. */
  ghost predicate Refines<T>(q: Queue<T>, s: Spec<T>) {
    && q.calls == s.calls && q.closed == s.closed
    && q.values == (if s.calls <= |s.pushed| then s.pushed[s.calls..] else [])
    && |q.waiters| == (if s.closed || s.calls <= |s.pushed| then 0 else s.calls - |s.pushed|)
    && (forall k :: 0 <= k < |q.waiters| ==> q.waiters[k] == |s.pushed| + k)
    && AnswersAsSpecified(q, s)
  }

  predicate AllDefined<T>(values: seq<Value<T>>) {
    forall i :: 0 <= i < |values| ==> values[i].Defined?
  }

  lemma {:induction false} AnswerAllIs<T>(answers: map<nat, Answer<T>>, waiters: seq<nat>, i: nat)
    ensures i in AnswerAll(answers, waiters) <==> i in answers || i in waiters
    ensures i in waiters ==> AnswerAll(answers, waiters)[i] == Done
    ensures i !in waiters && i in answers ==> AnswerAll(answers, waiters)[i] == answers[i]
    decreases waiters
  {
    if waiters != [] {
      AnswerAllIs(answers[waiters[0] := Done], waiters[1..], i);
      assert waiters == [waiters[0]] + waiters[1..];
    }
  }

  lemma StepRefines<T>(q: Queue<T>, s: Spec<T>, op: Op<T>)
    requires Refines(q, s) && AllDefined(s.pushed)
    ensures Refines(Step(q, op), SpecStep(s, op))
  {
    match op {
      case Push(v) =>
      case Close => CloseRefines(q, s);
      case Next => NextRefines(q, s);
    }
  }

  lemma CloseRefines<T>(q: Queue<T>, s: Spec<T>)
    requires Refines(q, s)
    ensures Refines(Step(q, Close), SpecStep(s, Close))
  {
    forall i: nat
      ensures i in AnswerAll(q.answers, q.waiters) <==> i < s.calls
      ensures i < s.calls ==> AnswerAll(q.answers, q.waiters)[i]
                              == if i < |s.pushed| then Delivered(s.pushed[i]) else Done
    {
      AnswerAllIs(q.answers, q.waiters, i);
      assert i in q.waiters ==> i >= |s.pushed|;
      assert |s.pushed| <= i < s.calls && !s.closed ==> q.waiters[i - |s.pushed|] == i;
    }
  }

  lemma NextRefines<T>(q: Queue<T>, s: Spec<T>)
    requires Refines(q, s) && AllDefined(s.pushed)
    ensures Refines(Step(q, Next), SpecStep(s, Next))
  {
  }

  /** Whatever the order of pushes, calls and close, the queue does what its specification says. */
  lemma {:induction false} RunRefines<T>(q: Queue<T>, s: Spec<T>, ops: seq<Op<T>>)
    requires Refines(q, s) && AllDefined(SpecRun(s, ops).pushed)
    ensures Refines(Run(q, ops), SpecRun(s, ops))
    decreases ops
  {
    if ops != [] {
      PushedGrows(s, ops);
      StepRefines(q, s, ops[0]);
      RunRefines(Step(q, ops[0]), SpecStep(s, ops[0]), ops[1..]);
    }
  }

  lemma {:induction false} PushedGrows<T>(s: Spec<T>, ops: seq<Op<T>>)
    ensures s.pushed <= SpecRun(s, ops).pushed
    decreases ops
  {
    if ops != [] {
      PushedGrows(SpecStep(s, ops[0]), ops[1..]);
    }
  }

  /** From a fresh queue: every answer is the specified one, values and waiters are never both
      there, and once closed nobody waits. */
  lemma QueueRefinesSpec<T>(ops: seq<Op<T>>)
    requires AllDefined(SpecRun(Spec([], 0, false), ops).pushed)
    ensures var q, s := Run(Fresh(), ops), SpecRun(Spec([], 0, false), ops);
            && AnswersAsSpecified(q, s)
            && (q.values == [] || q.waiters == [])
            && (q.closed ==> q.waiters == [])
  {
    RunRefines(Fresh(), Spec([], 0, false), ops);
  }

  // ----- the value that cannot be carried -----

  ghost predicate OnlyPushes<T>(v: Value<T>, ops: seq<Op<T>>) {
    forall i :: 0 <= i < |ops| && ops[i].Push? ==> ops[i].value == v
  }

  ghost predicate Carries<T(!new)>(v: Value<T>) {
    forall ops: seq<Op<T>> :: OnlyPushes(v, ops) ==>
      AnswersAsSpecified(Run(Fresh(), ops), SpecRun(Spec([], 0, false), ops))
  }

  lemma {:induction false} PushedAre<T>(v: Value<T>, s: Spec<T>, ops: seq<Op<T>>)
    requires OnlyPushes(v, ops) && v.Defined? && AllDefined(s.pushed)
    ensures AllDefined(SpecRun(s, ops).pushed)
    decreases ops
  {
    if ops != [] {
      assert OnlyPushes(v, ops[1..]);
      PushedAre(v, SpecStep(s, ops[0]), ops[1..]);
    }
  }

  /** The queue carries exactly the defined values: a buffered `undefined` is dropped by next(). */
  lemma CarriesExactlyDefined<T(!new)>(v: Value<T>)
    ensures Carries(v) <==> v.Defined?
  {
    if v.Defined? {
      forall ops: seq<Op<T>> | OnlyPushes(v, ops)
        ensures AnswersAsSpecified(Run(Fresh(), ops), SpecRun(Spec([], 0, false), ops))
      {
        PushedAre(v, Spec([], 0, false), ops);
        QueueRefinesSpec(ops);
      }
    } else {
      var ops: seq<Op<T>> := [Push(v), Next];
      UndefinedIsLost<T>();
      assert OnlyPushes(v, ops);
    }
  }

  lemma UndefinedIsLost<T>()
    ensures var ops: seq<Op<T>> := [Push(Undefined), Next];
            && 0 !in Run<T>(Fresh(), ops).answers
            && !AnswersAsSpecified(Run<T>(Fresh(), ops), SpecRun(Spec([], 0, false), ops))
  {
  }

  lemma PushedStays<T>(s: Spec<T>, op: Op<T>)
    ensures AllDefined(SpecStep(s, op).pushed) ==> AllDefined(s.pushed)
  {
    assert forall i :: 0 <= i < |s.pushed| ==> SpecStep(s, op).pushed[i] == s.pushed[i];
  }

  // ----- the class -----

  class AsyncEventQueue<T> {
    var values: seq<Value<T>>
    var waiters: seq<nat>                  // the calls of next() that wait, by number
    var closed: bool
    var calls: nat
    var answers: map<nat, Answer<T>>       // how the promises were resolved
    ghost var spec: Spec<T>

    ghost function State(): Queue<T>
      reads this
    {
      Queue(values, waiters, closed, calls, answers)
    }

    /** As long as no `undefined` is pushed, the queue refines its specification. */
    ghost predicate Valid()
      reads this
    {
      && closed == spec.closed && calls == spec.calls
      && (AllDefined(spec.pushed) ==> Refines(State(), spec))
    }

    constructor ()
      ensures Valid() && spec == Spec([], 0, false)
    {
      values, waiters, closed, calls, answers := [], [], false, 0, map[];
      spec := Spec([], 0, false);
    }

    method PushValue(value: Value<T>)
      requires Valid()
      modifies this
      ensures Valid() && spec == SpecStep(old(spec), Push(value))
      ensures State() == Step(old(State()), Push(value))
    {
      if AllDefined(spec.pushed) {
        StepRefines(State(), spec, Push(value));
      }
      PushedStays(spec, Push(value));
      spec := SpecStep(spec, Push(value));
      if closed {
        return;
      }
      if waiters != [] {
        var waiter := waiters[0];
        waiters := waiters[1..];
        answers := answers[waiter := Delivered(value)];
        return;
      }
      values := values + [value];
    }

    method CloseQueue()
      requires Valid()
      modifies this
      ensures Valid() && spec == SpecStep(old(spec), Close)
      ensures State() == Step(old(State()), Close)
    {
      if AllDefined(spec.pushed) {
        StepRefines(State(), spec, Close);
      }
      PushedStays(spec, Close);
      spec := SpecStep(spec, Close);
      closed := true;
      while waiters != []
        invariant AnswerAll(answers, waiters) == AnswerAll(old(answers), old(waiters))
        invariant closed && values == old(values) && calls == old(calls)
        invariant spec == SpecStep(old(spec), Close)
        decreases |waiters|
      {
        var waiter := waiters[0];
        waiters := waiters[1..];
        answers := answers[waiter := Done];
      }
    }

    method NextValue() returns (call: nat)
      requires Valid()
      modifies this
      ensures Valid() && spec == SpecStep(old(spec), Next) && call == old(spec).calls
      ensures State() == Step(old(State()), Next)
    {
      if AllDefined(spec.pushed) {
        StepRefines(State(), spec, Next);
      }
      PushedStays(spec, Next);
      spec := SpecStep(spec, Next);
      call := calls;
      calls := calls + 1;
      var value: Value<T> := Undefined;
      if values != [] {
        value := values[0];
        values := values[1..];
      }
      if value.Defined? {
        answers := answers[call := Delivered(value)];
      } else if closed {
        answers := answers[call := Done];
      } else {
        waiters := waiters + [call];
      }
    }
  }
}
