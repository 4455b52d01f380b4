/**
 The table of requests that wait for an answer (src/core/agent/lsp-rpc-pipeline.ts):
 requests are numbered, each arms a timer, and a response, its timer, a failed send or a
 closing transport settles it (sections 4 and 5 of JSON-RPC 2.0).
 */
module LspRequests {
  import opened Options

  /** An id in an incoming message; the ids this side hands out are numbers. */
  datatype Id = NumberId(n: int) | StringId(s: string)

  datatype Reply = Result(value: string) | Error(code: int, message: string)

  datatype Outcome =
    | Resolved(value: string)
    | Refused(code: int, message: string)
    | TimedOut(request: string)
    | SendFailed
    | Closed(error: string)

  datatype Settlement = Settlement(id: nat, outcome: Outcome)

  datatype Table = Table(
    nextId: nat,
    pending: map<nat, string>,
    timers: set<nat>,
    settlements: seq<Settlement>)

  const EMPTY := Table(1, map[], {}, [])

  datatype Event =
    | Send(request: string, sent: bool)
    | Response(id: Id, reply: Reply)
    | Timeout(timer: nat)
    | RejectAll(error: string)

  // ----- one step -----

  function Settle(t: Table, id: nat, outcome: Outcome): Table {
    t.(pending := t.pending - {id}, timers := t.timers - {id},
       settlements := t.settlements + [Settlement(id, outcome)])
  }

  function OutcomeOf(reply: Reply): Outcome {
    match reply
    case Result(v) => Resolved(v)
    case Error(c, m) => Refused(c, m)
  }

  /** The pending requests in the order they were made, from `id` on. */
  function RejectFrom(t: Table, id: nat, error: string): Table
    decreases t.nextId - id
  {
    if id >= t.nextId then t
    else RejectFrom(if id in t.pending then Settle(t, id, Closed(error)) else t, id + 1, error)
  }

  function Step(t: Table, e: Event): Table {
    match e
    case Send(request, sent) =>
      var id := t.nextId;
      var armed := Table(id + 1, t.pending[id := request], t.timers + {id}, t.settlements);
      if sent then armed else Settle(armed, id, SendFailed)
    case Response(id, reply) =>
      if id.NumberId? && id.n >= 0 && id.n in t.pending then Settle(t, id.n, OutcomeOf(reply)) else t
    case Timeout(id) =>
      if id in t.timers then Settle(t, id, TimedOut(if id in t.pending then t.pending[id] else "")) else t
    case RejectAll(error) => RejectFrom(t, 1, error)
  }

  function Run(t: Table, events: seq<Event>): Table
    decreases events
  {
    if events == [] then t else Run(Step(t, events[0]), events[1..])
  }

  // ----- every issued request is pending or settled, once -----

  predicate IsSettled(log: seq<Settlement>, id: nat) {
    exists i :: 0 <= i < |log| && log[i].id == id
  }

  ghost predicate EachOnce(log: seq<Settlement>) {
    forall i, j :: 0 <= i < j < |log| ==> log[i].id != log[j].id
  }

  ghost predicate Consistent(t: Table) {
    && t.timers == t.pending.Keys
    && t.nextId >= 1
    && EachOnce(t.settlements)
    && (forall id :: id in t.pending ==> 1 <= id < t.nextId && !IsSettled(t.settlements, id))
    && (forall id: nat :: IsSettled(t.settlements, id) ==> 1 <= id < t.nextId)
    && (forall id :: 1 <= id < t.nextId ==> id in t.pending || IsSettled(t.settlements, id))
  }

  function Lookup(log: seq<Settlement>, id: nat): Option<Outcome> {
    if log == [] then None
    else if log[0].id == id then Some(log[0].outcome)
    else Lookup(log[1..], id)
  }

  lemma LookupAppend(log: seq<Settlement>, s: Settlement, id: nat)
    ensures Lookup(log + [s], id) ==
            if Lookup(log, id).Some? then Lookup(log, id)
            else if s.id == id then Some(s.outcome) else None
    ensures Lookup(log, id).Some? <==> IsSettled(log, id)
  {
    if log == [] {
      assert [s][1..] == [];
    } else {
      LookupAppend(log[1..], s, id);
      assert (log + [s])[1..] == log[1..] + [s];
      if IsSettled(log, id) {
        var i :| 0 <= i < |log| && log[i].id == id;
        assert i > 0 ==> log[1..][i - 1].id == id;
      }
      if IsSettled(log[1..], id) {
        var i :| 0 <= i < |log[1..]| && log[1..][i].id == id;
        assert log[i + 1].id == id;
      }
    }
  }

  lemma SettledAppend(log: seq<Settlement>, s: Settlement, id: nat)
    ensures IsSettled(log + [s], id) <==> IsSettled(log, id) || s.id == id
  {
    var log' := log + [s];
    if IsSettled(log, id) {
      var i :| 0 <= i < |log| && log[i].id == id;
      assert log'[i].id == id;
    }
    assert log'[|log|] == s;
  }

  lemma SettleConsistent(t: Table, id: nat, outcome: Outcome)
    requires Consistent(t) && id in t.pending
    ensures Consistent(Settle(t, id, outcome))
  {
    var s := Settlement(id, outcome);
    forall k: nat ensures IsSettled(t.settlements + [s], k) <==> IsSettled(t.settlements, k) || k == id {
      SettledAppend(t.settlements, s, k);
    }
    forall i | 0 <= i < |t.settlements| ensures t.settlements[i].id != id {
      assert IsSettled(t.settlements, t.settlements[i].id);
    }
  }

  /** What one settlement does to the outcome of each request. */
  lemma SettleOutcome(t: Table, id: nat, outcome: Outcome, n: nat)
    requires Consistent(t) && id in t.pending
    ensures Lookup(Settle(t, id, outcome).settlements, n)
            == if n == id then Some(outcome) else Lookup(t.settlements, n)
  {
    LookupAppend(t.settlements, Settlement(id, outcome), n);
    LookupAppend(t.settlements, Settlement(id, outcome), id);
  }

  lemma SettlePending(t: Table, id: nat, outcome: Outcome, n: nat)
    ensures var u := Settle(t, id, outcome);
            u.nextId == t.nextId && (n in u.pending <==> n in t.pending && n != id)
  {
  }

  lemma {:induction false} RejectFromSettles(t: Table, id: nat, error: string, n: nat)
    requires Consistent(t) && 1 <= id
    ensures var u := RejectFrom(t, id, error);
            && Consistent(u) && u.nextId == t.nextId
            && (n in u.pending <==> n in t.pending && n < id)
            && Lookup(u.settlements, n) ==
                 if n in t.pending && id <= n then Some(Closed(error)) else Lookup(t.settlements, n)
    decreases t.nextId - id
  {
    hide Lookup, Settle;
    if id < t.nextId {
      if id in t.pending {
        var t' := Settle(t, id, Closed(error));
        SettleConsistent(t, id, Closed(error));
        SettleOutcome(t, id, Closed(error), n);
        SettlePending(t, id, Closed(error), n);
        RejectFromSettles(t', id + 1, error, n);
      } else {
        RejectFromSettles(t, id + 1, error, n);
      }
    }
  }

  /** The table with a new request, before it is sent. */
  lemma ArmConsistent(t: Table, request: string)
    requires Consistent(t)
    ensures var id := t.nextId;
            Consistent(Table(id + 1, t.pending[id := request], t.timers + {id}, t.settlements))
  {
  }

  lemma StepConsistent(t: Table, e: Event)
    requires Consistent(t)
    ensures Consistent(Step(t, e))
  {
    match e {
      case Send(request, sent) =>
        ArmConsistent(t, request);
        if !sent {
          var id := t.nextId;
          SettleConsistent(Table(id + 1, t.pending[id := request], t.timers + {id}, t.settlements), id, SendFailed);
        }
      case Response(id, reply) =>
        if id.NumberId? && id.n >= 0 && id.n in t.pending {
          SettleConsistent(t, id.n, OutcomeOf(reply));
        }
      case Timeout(id) =>
        if id in t.timers {
          SettleConsistent(t, id, TimedOut(t.pending[id]));
        }
      case RejectAll(error) =>
        RejectFromSettles(t, 1, error, 0);
    }
  }

  /** Under any interleaving: issued ids are pending (with an armed timer) or settled, never both,
      and no id is settled twice. */
  lemma {:induction false} RunConsistent(t: Table, events: seq<Event>)
    requires Consistent(t)
    ensures Consistent(Run(t, events))
    decreases events
  {
    if events != [] {
      StepConsistent(t, events[0]);
      RunConsistent(Step(t, events[0]), events[1..]);
    }
  }

  // ----- which event settles a request, told without a table -----

  /** The first event after the sending of `n` that answers it. */
  function FirstAnswer(events: seq<Event>, n: nat, request: string): Option<Outcome>
    decreases events
  {
    if events == [] then None
    else
      match events[0]
      case Response(id, Result(value)) =>
        if id == NumberId(n) then Some(Resolved(value)) else FirstAnswer(events[1..], n, request)
      case Response(id, Error(code, message)) =>
        if id == NumberId(n) then Some(Refused(code, message)) else FirstAnswer(events[1..], n, request)
      case Timeout(id) => if id == n then Some(TimedOut(request)) else FirstAnswer(events[1..], n, request)
      case RejectAll(error) => Some(Closed(error))
      case Send(_, _) => FirstAnswer(events[1..], n, request)
  }

  /** The fate of the request numbered `n`, when `next` is the number of the next one. */
  function Fate(events: seq<Event>, next: nat, n: nat): Option<Outcome>
    decreases events
  {
    if events == [] then None
    else
      match events[0]
      case Send(request, sent) =>
        if next != n then Fate(events[1..], next + 1, n)
        else if sent then FirstAnswer(events[1..], n, request)
        else Some(SendFailed)
      case _ => Fate(events[1..], next, n)
  }

  lemma {:induction false} SettledForGood(t: Table, events: seq<Event>, n: nat)
    requires Consistent(t) && Lookup(t.settlements, n).Some?
    ensures Lookup(Run(t, events).settlements, n) == Lookup(t.settlements, n)
    decreases events
  {
    if events != [] {
      LookupAppend(t.settlements, Settlement(n, SendFailed), n);
      StepConsistent(t, events[0]);
      StepKeeps(t, events[0], n);
      SettledForGood(Step(t, events[0]), events[1..], n);
    }
  }

  lemma StepKeeps(t: Table, e: Event, n: nat)
    requires Consistent(t) && n < t.nextId && n !in t.pending
    ensures Lookup(Step(t, e).settlements, n) == Lookup(t.settlements, n)
    ensures n !in Step(t, e).pending
  {
    StepAnswers(t, e, n);
  }

  /** One event, as one request sees it. */
  lemma StepAnswers(t: Table, e: Event, n: nat)
    requires Consistent(t) && n < t.nextId
    ensures var u := Step(t, e);
            var answered := n in t.pending && !e.Send? && FirstAnswer([e], n, t.pending[n]).Some?;
            && (n in u.pending <==> n in t.pending && !answered)
            && (n in u.pending ==> u.pending[n] == t.pending[n])
            && Lookup(u.settlements, n)
               == if answered then FirstAnswer([e], n, t.pending[n]) else Lookup(t.settlements, n)
  {
    assert [e][1..] == [];
    match e {
      case Send(request, sent) =>
        var id := t.nextId;
        var armed := Table(id + 1, t.pending[id := request], t.timers + {id}, t.settlements);
        ArmConsistent(t, request);
        SettleOutcome(armed, id, SendFailed, n);
      case Response(id, reply) =>
        if id.NumberId? && id.n >= 0 && id.n in t.pending {
          SettleOutcome(t, id.n, OutcomeOf(reply), n);
        }
      case Timeout(id) =>
        if id in t.timers {
          SettleOutcome(t, id, TimedOut(t.pending[id]), n);
        }
      case RejectAll(error) =>
        RejectFromSettles(t, 1, error, n);
    }
  }

  predicate Answers(e: Event, n: nat) {
    match e
    case Send(_, _) => false
    case Response(id, _) => id == NumberId(n)
    case Timeout(id) => id == n
    case RejectAll(_) => true
  }

  lemma {:induction false} NothingToReject(t: Table, id: nat, error: string)
    requires t.pending == map[]
    ensures RejectFrom(t, id, error) == t
    decreases t.nextId - id
  {
    if id < t.nextId {
      NothingToReject(t, id + 1, error);
    }
  }

  /** Late, duplicate and unknown answers change nothing, and nothing else leaves the table as it is. */
  lemma OnlyWaitingRequestsAreAnswered(t: Table, e: Event)
    requires Consistent(t)
    ensures Step(t, e) == t <==> !e.Send? && forall n :: n in t.pending ==> !Answers(e, n)
  {
    NextIdAfter(t, e);
    forall n | n in t.pending && Answers(e, n) ensures n !in Step(t, e).pending {
      assert [e][1..] == [];
      StepAnswers(t, e, n);
    }
    if !e.Send? && forall n :: n in t.pending ==> !Answers(e, n) {
      if e.RejectAll? {
        assert t.pending == map[] by {
          assert forall n :: n in t.pending ==> Answers(e, n);
        }
        NothingToReject(t, 1, e.error);
      } else if e.Response? && e.id.NumberId? && e.id.n >= 0 {
        assert Answers(e, e.id.n);
      }
    }
  }

  lemma {:induction false} PendingFate(t: Table, events: seq<Event>, n: nat)
    requires Consistent(t) && n in t.pending
    ensures Lookup(Run(t, events).settlements, n) == FirstAnswer(events, n, t.pending[n])
    decreases events
  {
    LookupAppend(t.settlements, Settlement(n, SendFailed), n);
    if events != [] {
      var e, u := events[0], Step(t, events[0]);
      assert [e][1..] == [];
      StepConsistent(t, e);
      StepAnswers(t, e, n);
      if n in u.pending {
        PendingFate(u, events[1..], n);
      } else {
        SettledForGood(u, events[1..], n);
      }
    }
  }

  /** A new request waits, or has already failed to be sent. */
  lemma NewRequest(t: Table, request: string, sent: bool)
    requires Consistent(t)
    ensures var u := Step(t, Send(request, sent));
            && u.nextId == t.nextId + 1
            && (sent ==> t.nextId in u.pending && u.pending[t.nextId] == request)
            && (!sent ==> Lookup(u.settlements, t.nextId) == Some(SendFailed))
  {
    var id := t.nextId;
    ArmConsistent(t, request);
    SettleOutcome(Table(id + 1, t.pending[id := request], t.timers + {id}, t.settlements), id, SendFailed, id);
  }

  lemma {:induction false} UnissuedFate(t: Table, events: seq<Event>, n: nat)
    requires Consistent(t) && n >= t.nextId
    ensures Lookup(Run(t, events).settlements, n) == Fate(events, t.nextId, n)
    decreases events
  {
    LookupAppend(t.settlements, Settlement(n, SendFailed), n);
    if events != [] {
      var e, u := events[0], Step(t, events[0]);
      StepConsistent(t, e);
      if e.Send? {
        NewRequest(t, e.request, e.sent);
      }
      NextIdAfter(t, e);
      if u.nextId <= n {
        UnissuedFate(u, events[1..], n);
      } else if e.sent {
        PendingFate(u, events[1..], n);
      } else {
        SettledForGood(u, events[1..], n);
      }
    }
  }

  lemma NextIdAfter(t: Table, e: Event)
    requires Consistent(t)
    ensures Step(t, e).nextId == t.nextId + if e.Send? then 1 else 0
  {
    if e.RejectAll? {
      RejectFromSettles(t, 1, e.error, 0);
    }
  }

  /** The outcome of every request is the first event, after it was sent, that answers it;
      without such an event it is still pending. */
  lemma EveryRequestMeetsItsFate(events: seq<Event>, n: nat)
    requires n >= 1
    ensures var t := Run(EMPTY, events);
            && Consistent(t)
            && Lookup(t.settlements, n) == Fate(events, 1, n)
            && (n in t.pending <==> n < t.nextId && Fate(events, 1, n).None?)
  {
    RunConsistent(EMPTY, events);
    UnissuedFate(EMPTY, events, n);
    LookupAppend(Run(EMPTY, events).settlements, Settlement(n, SendFailed), n);
  }

  /** What has to have happened for a request to end in some way. */
  predicate Explains(events: seq<Event>, n: nat, outcome: Outcome) {
    match outcome
    case Resolved(value) => Response(NumberId(n), Result(value)) in events
    case Refused(code, message) => Response(NumberId(n), Error(code, message)) in events
    case TimedOut(request) => Timeout(n) in events && Send(request, true) in events
    case SendFailed => exists i :: 0 <= i < |events| && events[i].Send? && !events[i].sent
    case Closed(error) => RejectAll(error) in events
  }

  lemma ExplainsMore(events: seq<Event>, n: nat, outcome: Outcome)
    requires events != [] && Explains(events[1..], n, outcome)
    ensures Explains(events, n, outcome)
  {
    if outcome.SendFailed? {
      var i :| 0 <= i < |events[1..]| && events[1..][i].Send? && !events[1..][i].sent;
      assert events[i + 1] == events[1..][i];
    }
  }

  lemma {:induction false} AnswerExplains(events: seq<Event>, n: nat, request: string)
    requires FirstAnswer(events, n, request).Some?
    ensures var outcome := FirstAnswer(events, n, request).value;
            && !outcome.SendFailed?
            && if outcome.TimedOut? then outcome.request == request && Timeout(n) in events
               else Explains(events, n, outcome)
    decreases events
  {
    assert events[0] in events;
    if FirstAnswer(events, n, request) == FirstAnswer(events[1..], n, request) {
      AnswerExplains(events[1..], n, request);
    }
  }

  lemma {:induction false} FateExplains(events: seq<Event>, next: nat, n: nat)
    requires Fate(events, next, n).Some?
    ensures Explains(events, n, Fate(events, next, n).value)
    decreases events
  {
    var e := events[0];
    if e.Send? && next == n {
      if e.sent {
        AnswerExplains(events[1..], n, e.request);
        assert e == Send(e.request, true) && e in events;
      }
    } else {
      FateExplains(events[1..], if e.Send? then next + 1 else next, n);
      ExplainsMore(events, n, Fate(events, next, n).value);
    }
  }

  /** A request is resolved only by a result for it, refused only by an error for it, timed out only by its
      timer, and closed only with everything else; and nothing but its own method is named by a timeout. */
  lemma OutcomesHaveTheirCause(events: seq<Event>, n: nat)
    requires n >= 1 && Lookup(Run(EMPTY, events).settlements, n).Some?
    ensures Explains(events, n, Lookup(Run(EMPTY, events).settlements, n).value)
  {
    EveryRequestMeetsItsFate(events, n);
    FateExplains(events, 1, n);
  }

  /** After every run: a reply to a pending request settles it with what the reply says. */
  lemma RepliesSettle(events: seq<Event>, n: nat, reply: Reply)
    requires n in Run(EMPTY, events).pending
    ensures var after := Run(EMPTY, events + [Response(NumberId(n), reply)]);
            && n !in after.pending
            && Lookup(after.settlements, n)
               == Some(match reply
                       case Result(value) => Resolved(value)
                       case Error(code, message) => Refused(code, message))
  {
    var t, e := Run(EMPTY, events), Response(NumberId(n), reply);
    RunConsistent(EMPTY, events);
    RunAppend(EMPTY, events, [e]);
    assert [e][1..] == [];
    StepAnswers(t, e, n);
  }

  lemma {:induction false} RunAppend(t: Table, es: seq<Event>, fs: seq<Event>)
    ensures Run(t, es + fs) == Run(Run(t, es), fs)
    decreases es
  {
    if es == [] {
      assert [] + fs == fs;
    } else {
      assert (es + fs)[1..] == es[1..] + fs;
      RunAppend(Step(t, es[0]), es[1..], fs);
    }
  }
}
