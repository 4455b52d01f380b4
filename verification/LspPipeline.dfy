/**
 The message pipeline to a language server (src/core/agent/lsp-rpc-pipeline.ts): a growing
 input buffer, the queue of parsed messages, and the table of pending requests.
 */
module LspPipeline {
  import opened Options
  import opened Text
  import opened LspFrames
  import opened LspRequests

  /** A parsed message; `reply` is what it says if it answers a request. */
  datatype Message = Message(id: Option<Id>, isCall: bool, reply: Reply)

  /** The messages of the payloads that parse, in order. */
  function ParsedMessages(parse: Bytes -> Option<Message>, payloads: seq<Bytes>): seq<Message> {
    if payloads == [] then []
    else
      var m := parse(payloads[0]);
      (if m.Some? then [m.value] else []) + ParsedMessages(parse, payloads[1..])
  }

  lemma {:induction false} ParsedMessagesAppend(parse: Bytes -> Option<Message>, ps: seq<Bytes>, p: Bytes)
    ensures ParsedMessages(parse, ps + [p])
            == ParsedMessages(parse, ps) + if parse(p).Some? then [parse(p).value] else []
  {
    if ps == [] {
      var one := [p];
      assert ps + [p] == one && one[1..] == [];
      assert ParsedMessages(parse, one[1..]) == [];
    } else {
      var m := parse(ps[0]);
      assert (ps + [p])[1..] == ps[1..] + [p];
      ParsedMessagesAppend(parse, ps[1..], p);
      Assoc(if m.Some? then [m.value] else [], ParsedMessages(parse, ps[1..]),
            if parse(p).Some? then [parse(p).value] else []);
    }
  }

  /** The requests answered by a queue of messages, seen as events of the request table. */
  function Answered(queue: seq<Message>): seq<Event> {
    if queue == [] then []
    else
      (if queue[0].id.Some? && !queue[0].isCall then [Response(queue[0].id.value, queue[0].reply)] else [])
      + Answered(queue[1..])
  }

  /** The other messages of a queue. */
  function Calls(queue: seq<Message>): seq<Message> {
    if queue == [] then []
    else (if Answered([queue[0]]) == [] then [queue[0]] else []) + Calls(queue[1..])
  }

  /** The message answers a request: it has an id and names no method. */
  predicate IsReply(m: Message) {
    m.id.Some? && !m.isCall
  }

  lemma OneRouted(m: Message)
    ensures Answered([m]) == if IsReply(m) then [Response(m.id.value, m.reply)] else []
    ensures Calls([m]) == if IsReply(m) then [] else [m]
  {
    assert [m][1..] == [];
  }

  lemma {:induction false} RoutedAppend(queue: seq<Message>, more: seq<Message>)
    ensures Answered(queue + more) == Answered(queue) + Answered(more)
    ensures Calls(queue + more) == Calls(queue) + Calls(more)
    decreases queue
  {
    if queue == [] {
      assert queue + more == more;
    } else {
      var first, rest := [queue[0]], queue[1..];
      RoutedFirst(queue);
      RoutedFirst(queue + more);
      assert (queue + more)[1..] == rest + more && (queue + more)[0] == queue[0];
      RoutedAppend(rest, more);
      hide Answered, Calls;
      Assoc(Answered(first), Answered(rest), Answered(more));
      Assoc(Calls(first), Calls(rest), Calls(more));
    }
  }

  lemma RoutedFirst(queue: seq<Message>)
    requires queue != []
    ensures Answered(queue) == Answered([queue[0]]) + Answered(queue[1..])
    ensures Calls(queue) == Calls([queue[0]]) + Calls(queue[1..])
  {
    OneRouted(queue[0]);
  }

  /** Each message of a queue goes one way, in order: a reply to the request table, any other to the client. */
  lemma RoutedExactly(queue: seq<Message>, m: Message)
    ensures Answered(queue + [m]) == Answered(queue) + if IsReply(m) then [Response(m.id.value, m.reply)] else []
    ensures Calls(queue + [m]) == Calls(queue) + if IsReply(m) then [] else [m]
    ensures Answered([]) == [] && Calls([]) == []
  {
    RoutedAppend(queue, [m]);
    OneRouted(m);
  }

  /** After `delivered`, what is left in the buffer gives the rest of `whole`. */
  ghost predicate Progress(whole: Drained, delivered: seq<Bytes>, buffer: Bytes) {
    whole == Drain(buffer).(payloads := delivered + Drain(buffer).payloads)
  }

  lemma Advance(whole: Drained, delivered: seq<Bytes>, buffer: Bytes)
    requires Progress(whole, delivered, buffer)
    ensures match NextFrame(buffer)
            case NeedMore => whole == Drained(delivered, buffer, false)
            case BadHeader => whole == Drained(delivered, buffer, true)
            case Frame(payload, rest) => Progress(whole, delivered + [payload], rest)
  {
    match NextFrame(buffer) {
      case Frame(payload, rest) => Assoc(delivered, [payload], Drain(rest).payloads);
      case _ => assert delivered + [] == delivered;
    }
  }

  class LspRpcMessagePipeline {
    const parse: Bytes -> Option<Message>
    var output: Option<bool>             // the attached transport, if any: is it writable?
    var written: Bytes                   // what has been written to the output
    var stdoutBuffer: Bytes
    var messageQueue: seq<Message>       // parsed, not yet routed
    var handled: seq<Message>            // handed to the client's message handler
    var nextId: nat
    var pendingRequests: map<nat, string>
    var timers: set<nat>                 // timers that have been armed and not cleared
    var settlements: seq<Settlement>     // calls of resolve and reject, in order

    ghost function Requests(): Table
      reads this
    {
      Table(nextId, pendingRequests, timers, settlements)
    }

    ghost predicate Valid()
      reads this
    {
      Consistent(Requests())
    }

    constructor (parse: Bytes -> Option<Message>)
      ensures Valid() && Requests() == EMPTY && this.parse == parse
      ensures stdoutBuffer == "" && messageQueue == [] && output == None && written == ""
    {
      this.parse := parse;
      output, written, stdoutBuffer, messageQueue, handled := None, "", "", [], [];
      nextId, pendingRequests, timers, settlements := 1, map[], {}, [];
    }

    method SetOutput(writable: bool)
      modifies `output
      ensures output == Some(writable)
    {
      output := Some(writable);
    }

    method ClearTransport()
      modifies `output, `stdoutBuffer
      ensures output == None && stdoutBuffer == ""
    {
      output, stdoutBuffer := None, "";
    }

    method HandleIncomingChunk(chunk: Bytes) returns (threw: bool)
      modifies `stdoutBuffer, `messageQueue
      ensures var d := Drain(old(stdoutBuffer) + chunk);
              && stdoutBuffer == d.leftover && threw == d.stuck
              && messageQueue == old(messageQueue) + ParsedMessages(parse, d.payloads)
    {
      hide NextFrame, Drain;
      stdoutBuffer := stdoutBuffer + chunk;
      ghost var whole := Drain(stdoutBuffer);
      ghost var delivered: seq<Bytes> := [];
      assert old(messageQueue) + [] == old(messageQueue);
      while true
        invariant Progress(whole, delivered, stdoutBuffer)
        invariant messageQueue == old(messageQueue) + ParsedMessages(parse, delivered)
        decreases |stdoutBuffer|
      {
        Advance(whole, delivered, stdoutBuffer);
        var next := TakeFrame();
        if next.NeedMore? {
          return false;
        }
        if next.BadHeader? {
          return true;
        }
        ParsedMessagesAppend(parse, delivered, next.payload);
        HandleIncomingPayload(next.payload);
        delivered := delivered + [next.payload];
      }
    }

    /** Remove the first complete frame from the buffer, if there is one. */
    method TakeFrame() returns (next: Next)
      modifies `stdoutBuffer
      ensures next == NextFrame(old(stdoutBuffer))
      ensures stdoutBuffer == if next.Frame? then next.rest else old(stdoutBuffer)
    {
      var headerEnd := IndexOf(stdoutBuffer, DELIMITER, 0);
      if headerEnd == -1 {
        return NeedMore;
      }
      var contentLength := ParseContentLength(stdoutBuffer[..headerEnd]);
      if contentLength == None {
        return BadHeader;
      }
      var messageStart := headerEnd + 4;
      var messageEnd := messageStart + contentLength.value;
      if |stdoutBuffer| < messageEnd {
        return NeedMore;
      }
      next := Frame(stdoutBuffer[messageStart..messageEnd], stdoutBuffer[messageEnd..]);
      stdoutBuffer := next.rest;
    }

    /** A payload that does not parse is dropped. */
    method HandleIncomingPayload(payload: Bytes)
      modifies `messageQueue
      ensures messageQueue == old(messageQueue) + if parse(payload).Some? then [parse(payload).value] else []
    {
      var message := parse(payload);
      if message.Some? {
        messageQueue := messageQueue + [message.value];
      }
    }

    method SendRaw(payload: Bytes) returns (sent: bool)
      modifies `written
      ensures sent <==> output == Some(true)
      ensures written == old(written) + if sent then PrintFrame(payload) else ""
    {
      sent := output == Some(true);
      if sent {
        written := written + ("Content-Length: " + Decimal(|payload|) + "\r\n\r\n" + payload);
        assert PrintHeader(|payload|) + DELIMITER + payload == PrintFrame(payload);
      }
    }

    method SendRequest(request: string, payload: Bytes) returns (id: nat)
      requires Valid()
      modifies `nextId, `pendingRequests, `timers, `settlements, `written
      ensures Valid() && id == old(nextId)
      ensures Requests() == Step(old(Requests()), Send(request, output == Some(true)))
      ensures written == old(written) + if output == Some(true) then PrintFrame(payload) else ""
    {
      StepConsistent(Requests(), Send(request, output == Some(true)));
      id := nextId;
      nextId := nextId + 1;
      timers := timers + {id};
      pendingRequests := pendingRequests[id := request];
      var sent := SendRaw(payload);
      if !sent {
        timers := timers - {id};
        pendingRequests := pendingRequests - {id};
        settlements := settlements + [Settlement(id, SendFailed)];
      }
    }

    /** The timer of a request goes off, unless it has been cleared. */
    method TimerFires(id: nat)
      requires Valid()
      modifies `pendingRequests, `timers, `settlements
      ensures Valid() && Requests() == Step(old(Requests()), Timeout(id))
    {
      StepConsistent(Requests(), Timeout(id));
      if id in timers {
        var request := pendingRequests[id];
        timers := timers - {id};
        pendingRequests := pendingRequests - {id};
        settlements := settlements + [Settlement(id, TimedOut(request))];
      }
    }

    method RejectAllPending(error: string)
      requires Valid()
      modifies `pendingRequests, `timers, `settlements
      ensures Valid() && Requests() == Step(old(Requests()), RejectAll(error))
      ensures pendingRequests == map[]
    {
      StepConsistent(Requests(), RejectAll(error));
      AllRejected(Requests(), error);
      var id := 1;
      while id < nextId
        invariant id >= 1
        invariant RejectFrom(old(Requests()), 1, error) == RejectFrom(Requests(), id, error)
        decreases nextId - id
      {
        if id in pendingRequests {
          timers := timers - {id};
          settlements := settlements + [Settlement(id, Closed(error))];
          pendingRequests := pendingRequests - {id};
        }
        id := id + 1;
      }
    }

    /** The next message of the queue: an answer settles a request, anything else goes to the client. */
    method RouteIncomingMessage()
      requires Valid()
      requires messageQueue != []
      modifies `messageQueue, `handled, `pendingRequests, `timers, `settlements
      ensures Valid() && messageQueue == old(messageQueue)[1..]
      ensures var m := old(messageQueue)[0];
              && Requests() == Run(old(Requests()), Answered([m]))
              && handled == old(handled) + if Answered([m]) == [] then [m] else []
    {
      var message := messageQueue[0];
      assert [message][1..] == [];
      messageQueue := messageQueue[1..];
      if message.id.Some? && !message.isCall {
        ResolvePendingResponse(message.id.value, message.reply);
        assert [Response(message.id.value, message.reply)][1..] == [];
      } else {
        handled := handled + [message];
      }
    }

    method ResolvePendingResponse(id: Id, reply: Reply)
      requires Valid()
      modifies `pendingRequests, `timers, `settlements
      ensures Valid() && Requests() == Step(old(Requests()), Response(id, reply))
    {
      StepConsistent(Requests(), Response(id, reply));
      if id.StringId? || id.n < 0 || id.n !in pendingRequests {
        return;
      }
      timers := timers - {id.n};
      pendingRequests := pendingRequests - {id.n};
      settlements := settlements + [Settlement(id.n, OutcomeOf(reply))];
    }

    /** Route everything that has been parsed so far. */
    method DrainMessages()
      requires Valid()
      modifies `messageQueue, `handled, `pendingRequests, `timers, `settlements
      ensures Valid() && messageQueue == []
      ensures Requests() == Run(old(Requests()), Answered(old(messageQueue)))
      ensures handled == old(handled) + Calls(old(messageQueue))
    {
      assert old(handled) + Calls(old(messageQueue)) == handled + Calls(messageQueue);
      while messageQueue != []
        invariant Valid()
        invariant old(handled) + Calls(old(messageQueue)) == handled + Calls(messageQueue)
        invariant Run(old(Requests()), Answered(old(messageQueue))) == Run(Requests(), Answered(messageQueue))
        decreases |messageQueue|
      {
        ghost var queue := messageQueue;
        AnsweredFirst(queue);
        RunAppend(Requests(), Answered([queue[0]]), Answered(queue[1..]));
        CallsFirst(handled, queue);
        RouteIncomingMessage();
      }
    }
  }

  lemma CallsFirst(handled: seq<Message>, queue: seq<Message>)
    requires queue != []
    ensures handled + Calls(queue)
            == (handled + if Answered([queue[0]]) == [] then [queue[0]] else []) + Calls(queue[1..])
  {
    assert [queue[0]][1..] == [];
    Assoc(handled, if Answered([queue[0]]) == [] then [queue[0]] else [], Calls(queue[1..]));
  }

  lemma AnsweredFirst(queue: seq<Message>)
    requires queue != []
    ensures Answered(queue) == Answered([queue[0]]) + Answered(queue[1..])
  {
  }

  lemma AllRejected(t: Table, error: string)
    requires Consistent(t)
    ensures RejectFrom(t, 1, error).pending == map[]
  {
    var u := RejectFrom(t, 1, error);
    forall n ensures n !in u.pending {
      if n in u.pending {
        RejectFromSettles(t, 1, error, n);
      }
    }
    RejectFromSettles(t, 1, error, 0);
  }
}
